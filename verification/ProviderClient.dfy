/** Outcome classification of the StreamElements client
  * (`infrastructure/se_client.py`) and what an economy handler makes of it.
  */
module ProviderClient {
  import opened Options
  import opened Pricing

  /** What the HTTP library reports for one request. */
  datatype Transport =
    | NotConnected                         // connect error, connect timeout, pool timeout
    | Lost                                 // read or write timeout, protocol error, any other HTTP error
    | Response(status: nat, body: Body)

  datatype Body = NotJson | Json(points: Points)
  datatype Points = Missing | Number(value: int) | NotANumber

  datatype ProviderError =
    | ConnectionNotSent | AmbiguousWrite | ServerRead | Authentication | RateLimit | Validation | Unexpected

  datatype Reply<T> = Ok(value: T) | Err(error: ProviderError)

  /** `_request`: the status ladder, in the source's order. */
  function Request(t: Transport, write: bool): (r: Reply<Body>)
    ensures r == Err(AmbiguousWrite) ==> write
    ensures r.Ok? ==> t.Response? && t.status < 400 && r.value == t.body
  {
    match t
    case NotConnected => Err(ConnectionNotSent)
    case Lost => if write then Err(AmbiguousWrite) else Err(ServerRead)
    case Response(status, body) =>
      if status == 401 || status == 403 then Err(Authentication)
      else if status == 429 then Err(RateLimit)
      else if status == 400 || status == 404 then Err(Validation)
      else if status >= 500 then (if write then Err(AmbiguousWrite) else Err(ServerRead))
      else if status >= 400 then Err(Unexpected)
      else Ok(body)
  }

  /** `add_points`: an unreadable `points` field is only an absent balance. */
  function AddPoints(t: Transport): Reply<Option<int>>
  {
    match Request(t, true)
    case Err(e) => Err(e)
    case Ok(NotJson) => Err(Unexpected)
    case Ok(Json(Number(n))) => Ok(Some(n))
    case Ok(Json(_)) => Ok(None)
  }

  /** `get_balance`: a missing field is zero, an unreadable one an error. The
    * branch that turns 404 into zero is never reached, `_request` raises first.
    */
  function GetBalance(t: Transport): Reply<int>
  {
    match Request(t, false)
    case Err(e) => Err(e)
    case Ok(NotJson) => Err(Unexpected)
    case Ok(Json(Missing)) => Ok(0)
    case Ok(Json(Number(n))) => Ok(n)
    case Ok(Json(NotANumber)) => Err(Unexpected)
  }

  predicate ValidBalance(n: int) { 0 <= n <= POINTS_MAX }

  /** How the exception handlers of one execution classify it. */
  datatype Seen =
    | Success      // write confirmed and the closing transaction commits
    | Rejected     // a definite provider error
    | Retryable    // not sent, or rate limited
    | Ambiguous
    | Broken       // any other exception: the local part failed

  function SeenError(e: ProviderError): Seen
  {
    match e
    case AmbiguousWrite => Ambiguous
    case ConnectionNotSent => Retryable
    case RateLimit => Retryable
    case _ => Rejected
  }

  /** `_execute_sell` and `_execute_buy`: the write, the follow-up balance read
    * when the write reported none, the range check, the closing commit.
    */
  function RequestSeen(write: Transport, read: Transport, committed: bool): Seen
  {
    match AddPoints(write)
    case Err(e) => SeenError(e)
    case Ok(Some(n)) => if ValidBalance(n) && committed then Success else Broken
    case Ok(None) =>
      match GetBalance(read)
      case Err(e) => SeenError(e)
      case Ok(n) => if ValidBalance(n) && committed then Success else Broken
  }

  /** The outbox worker: an out-of-range balance is a definite error there, and
    * there is no follow-up read.
    */
  function WorkerSeen(write: Transport, committed: bool): Seen
  {
    match AddPoints(write)
    case Err(e) => SeenError(e)
    case Ok(Some(n)) => if !ValidBalance(n) then Rejected else if committed then Success else Broken
    case Ok(None) => if committed then Success else Broken
  }

  /** A provider that tells the truth in its status codes: a write answered
    * below 400 was applied, one refused with 4xx or never connected was not. A
    * lost connection and a 5xx say nothing.
    */
  predicate HonestWrite(write: Transport, applied: bool)
  {
    match write
    case NotConnected => !applied
    case Lost => true
    case Response(status, _) => (status < 400 ==> applied) && (400 <= status < 500 ==> !applied)
  }

  /** What the handlers conclude about the provider from a classification. */
  predicate Claims(seen: Seen, applied: bool)
  {
    match seen
    case Success => applied
    case Rejected => !applied
    case Retryable => !applied
    case Ambiguous => true
    case Broken => applied
  }

  /** For a truthful provider, the request path concludes correctly exactly
    * when a confirmed write does not end in a provider error: its body must
    * parse, and if it carries no balance the follow-up read must succeed.
    */
  lemma RequestClaimsIff(write: Transport, read: Transport, committed: bool, applied: bool)
    requires HonestWrite(write, applied)
    ensures Claims(RequestSeen(write, read, committed), applied) <==>
            !(write.Response? && write.status < 400 &&
              (write.body.NotJson? || (AddPoints(write) == Ok(None) && GetBalance(read).Err?)))
  {
    var seen := RequestSeen(write, read, committed);
    if write.Response? && write.status < 400 {
      assert Request(write, true) == Ok(write.body);
      if AddPoints(write) == Ok(None) && GetBalance(read).Err? {
        assert GetBalance(read).error != AmbiguousWrite;
      }
    }
  }

  /** The same for the worker: the balance of a confirmed write must also be in
    * range, an absent one does no harm.
    */
  lemma WorkerClaimsIff(write: Transport, committed: bool, applied: bool)
    requires HonestWrite(write, applied)
    ensures Claims(WorkerSeen(write, committed), applied) <==>
            !(write.Response? && write.status < 400 &&
              (write.body.NotJson? || (write.body.points.Number? && !ValidBalance(write.body.points.value))))
  {
    if write.Response? && write.status < 400 {
      assert Request(write, true) == Ok(write.body);
    }
  }

  // ---- each class from the exchange alone ----------------------------------

  /** The write never reached the provider, or was turned away for its rate. */
  predicate NotSent(t: Transport) { t.NotConnected? || (t.Response? && t.status == 429) }

  /** Nobody knows whether it did. */
  predicate Uncertain(t: Transport) { t.Lost? || (t.Response? && t.status >= 500) }

  predicate Confirmed(t: Transport) { t.Response? && t.status < 400 }

  /** Any other status turns it down for good. */
  predicate TurnedDown(t: Transport) { t.Response? && 400 <= t.status < 500 && t.status != 429 }

  /** A confirmed write whose body is readable but carries no balance. */
  predicate WithoutBalance(t: Transport) { Confirmed(t) && t.body.Json? && !t.body.points.Number? }

  /** A balance read finds this many points; a missing field is zero. */
  predicate Finds(read: Transport, balance: int)
  {
    Confirmed(read) && (read.body == Json(Number(balance)) || (read.body == Json(Missing) && balance == 0))
  }

  /** The balance the request ends up with: the write's own, or that of a second
    * read.
    */
  predicate Reports(write: Transport, read: Transport, balance: int)
  {
    || (Confirmed(write) && write.body == Json(Number(balance)))
    || (WithoutBalance(write) && Finds(read, balance))
  }

  predicate InPointsRange(balance: int) { 0 <= balance <= 2_147_483_647 }

  /** The balance can be read off the exchange, in range or not. */
  ghost predicate Settles(write: Transport, read: Transport, inRange: bool)
  {
    exists n :: Reports(write, read, n) && (InPointsRange(n) <==> inRange)
  }

  /** Nothing was sent, or the balance read after the write was not. */
  predicate PutOff(write: Transport, read: Transport)
  {
    NotSent(write) || (WithoutBalance(write) && NotSent(read))
  }

  /** The write is turned down, its body cannot be read, or the balance cannot. */
  ghost predicate TurnedAway(write: Transport, read: Transport)
  {
    || TurnedDown(write) || (Confirmed(write) && write.body.NotJson?)
    || (WithoutBalance(write) && !NotSent(read) && !exists n :: Reports(write, read, n))
  }

  /** What the request makes of an exchange, class by class. */
  lemma RequestClasses(write: Transport, read: Transport, committed: bool)
    ensures var seen := RequestSeen(write, read, committed);
            && (seen == Retryable <==> PutOff(write, read))
            && (seen == Ambiguous <==> Uncertain(write))
            && (seen == Rejected <==> TurnedAway(write, read))
            && (seen == Success <==> committed && Settles(write, read, true))
            && (seen == Broken <==> Settles(write, read, false) || (!committed && Settles(write, read, true)))
  {
    if AddPoints(write).Ok? {
      var own := AddPoints(write).value;
      if own.Some? {
        assert Reports(write, read, own.value);
      } else if GetBalance(read).Ok? {
        assert Reports(write, read, GetBalance(read).value);
      }
    }
  }

  /** The balance of a confirmed write, if it carries one, is in range. */
  predicate WorkerSettles(write: Transport)
  {
    Confirmed(write) && write.body.Json? && (write.body.points.Number? ==> InPointsRange(write.body.points.value))
  }

  /** What the worker makes of one. It reads no balance afterwards. */
  lemma WorkerClasses(write: Transport, committed: bool)
    ensures var seen := WorkerSeen(write, committed);
            && (seen == Retryable <==> NotSent(write))
            && (seen == Ambiguous <==> Uncertain(write))
            && (seen == Rejected <==> TurnedDown(write) || (Confirmed(write) && !WorkerSettles(write)))
            && (seen == Success <==> committed && WorkerSettles(write))
            && (seen == Broken <==> !committed && WorkerSettles(write))
  {
    if Confirmed(write) {
      assert Request(write, true) == Ok(write.body);
    }
  }

  // ---- the balance read before a write -------------------------------------

  /** The worker reads the balance first and checks that the write fits; without
    * an objection it goes on to write.
    */
  function WorkerReadSeen(read: Transport, debit: bool, points: nat): Option<Seen>
  {
    match GetBalance(read)
    case Err(e) => Some(SeenError(e))
    case Ok(n) =>
      if ValidBalance(n) && points <= (if debit then n else POINTS_MAX - n) then None else Some(Rejected)
  }

  predicate RoomFor(balance: int, debit: bool, points: nat)
  {
    && InPointsRange(balance)
    && if debit then 0 <= balance - points else balance + points <= 2_147_483_647
  }

  lemma WorkerReadClasses(read: Transport, debit: bool, points: nat)
    ensures var seen := WorkerReadSeen(read, debit, points);
            && (seen == None <==> exists n :: Finds(read, n) && RoomFor(n, debit, points))
            && (seen == Some(Retryable) <==> NotSent(read))
            && (seen == None || seen == Some(Retryable) || seen == Some(Rejected))
  {
    if GetBalance(read).Ok? {
      assert Finds(read, GetBalance(read).value);
    }
  }

  // ---- the refund of a purchase --------------------------------------------

  /** `_compensate_buy`: read the balance, check that the credit fits, write it;
    * only a refund that meets no error is confirmed.
    */
  function RefundConfirmed(read: Transport, write: Transport, points: nat): bool
  {
    match GetBalance(read)
    case Err(_) => false
    case Ok(n) =>
      ValidBalance(n) && points <= POINTS_MAX - n &&
      match AddPoints(write)
      case Err(_) => false
      case Ok(after) => after.Some? ==> ValidBalance(after.value)
  }

  /** A refund is confirmed exactly when it was sent, which takes room for it
    * under the cap, and its answer can be read.
    */
  lemma RefundConfirmedIff(read: Transport, write: Transport, points: nat)
    ensures RefundConfirmed(read, write, points) <==>
            WorkerSettles(write) && exists n :: Finds(read, n) && RoomFor(n, false, points)
  {
    if Confirmed(write) {
      assert Request(write, true) == Ok(write.body);
    }
    if GetBalance(read).Ok? {
      assert Finds(read, GetBalance(read).value);
    }
  }
}
