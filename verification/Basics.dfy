/** Stock definitions the other modules share. */
module Options {

  datatype Option<A> = None | Some(value: A)
}

module Numbers {

  function Min(a: int, b: int): int { if a <= b then a else b }

  function Max(a: int, b: int): int { if a <= b then b else a }

  function Lesser(a: real, b: real): real { if a <= b then a else b }

  function Greater(a: real, b: real): real { if a <= b then b else a }

  function Times(a: real, b: real): real { a * b }
}

/** `domain/logic/mass.py`, in whole numbers of 0.01 kg. */
module Mass {
  import opened Numbers

  /** `apply_mass_mutation`: clamped at the floor, also for a holder that starts
    * below it.
    */
  function Mutated(mass: int, delta: int, floor: int): int { Max(mass + delta, Max(floor, 0)) }
}

/** `str.strip` and `str.lower`. */
module Text {

  /** What `str.strip` removes. */
  predicate IsSpace(c: char)
  {
    || '\U{9}' <= c <= '\U{D}' || '\U{1C}' <= c <= ' ' || c == '\U{85}' || c == '\U{A0}' || c == '\U{1680}'
    || '\U{2000}' <= c <= '\U{200A}' || '\U{2028}' <= c <= '\U{2029}' || c == '\U{202F}' || c == '\U{205F}'
    || c == '\U{3000}'
  }

  function Strip(s: string): string
    decreases |s|
  {
    if s != [] && IsSpace(s[0]) then Strip(s[1..])
    else if s != [] && IsSpace(s[|s| - 1]) then Strip(s[..|s| - 1])
    else s
  }

  /** As far as it produces ASCII; U+212A is the Kelvin sign. */
  function Lower(c: char): char
  {
    if 'A' <= c <= 'Z' then c - 'A' + 'a' else if c == '\U{212A}' then 'k' else c
  }

  function LowerAll(s: string): string { seq(|s|, i requires 0 <= i < |s| => Lower(s[i])) }

  /** In ASCII a capital letter is 32 places before its small one; nothing else
    * changes but the Kelvin sign.
    */
  lemma LowerIs(c: char)
    ensures Lower(c) as int ==
            if 65 <= c as int <= 90 then c as int + 32 else if c as int == 0x212A then 107 else c as int
  {
  }

  /** The 29 blanks. */
  lemma BlanksAre(c: char)
    ensures IsSpace(c) <==>
            c as int in {0x9, 0xA, 0xB, 0xC, 0xD, 0x1C, 0x1D, 0x1E, 0x1F, 0x20, 0x85, 0xA0, 0x1680,
                         0x2000, 0x2001, 0x2002, 0x2003, 0x2004, 0x2005, 0x2006, 0x2007, 0x2008, 0x2009, 0x200A,
                         0x2028, 0x2029, 0x202F, 0x205F, 0x3000}
  {
  }

  predicate AllSpace(s: string) { forall i :: 0 <= i < |s| ==> IsSpace(s[i]) }

  predicate Trimmed(s: string) { s != [] ==> !IsSpace(s[0]) && !IsSpace(s[|s| - 1]) }

  /** Nothing is left of blanks. */
  lemma {:induction false} StripsBlanks(s: string)
    requires AllSpace(s)
    ensures Strip(s) == ""
    decreases |s|
  {
    if s != "" {
      StripsBlanks(s[1..]);
    }
  }

  /** Any run of blanks on either side goes, and nothing else. */
  lemma {:induction false} StripsPadding(before: string, s: string, after: string)
    requires AllSpace(before) && AllSpace(after) && Trimmed(s) && s != []
    ensures Strip(before + s + after) == s
    decreases |before| + |after|
  {
    var all := before + s + after;
    if before != [] {
      assert all[0] == before[0] && all[1..] == before[1..] + s + after;
      StripsPadding(before[1..], s, after);
    } else if after != [] {
      assert all[0] == s[0] && all[|all| - 1] == after[|after| - 1];
      assert all[..|all| - 1] == before + s + after[..|after| - 1];
      StripsPadding(before, s, after[..|after| - 1]);
    } else {
      assert all == s;
    }
  }
}
