/** How many tickets one client may ask for: a counter with a window of an hour. */
module Quota {
  import opened Domain

  const HOUR := 3_600_000
  const LIMIT := 3

  // The counter's value and when its key dies; a dead key counts from zero.
  datatype Counter = Counter(count: nat, deadline: Instant)

  // `cooldown` is what TTL answers for the cooldown key at the call.
  datatype Request = Request(now: Instant, cooldown: int)

  /** assertCanCreateTicket. */
  function Admit(c: Counter, r: Request): (Counter, bool) {
    if r.cooldown > 0 then (c, false)
    else
      var count := if r.now < c.deadline then c.count + 1 else 1;
      (Counter(count, if count == 1 then r.now + HOUR else c.deadline), count <= LIMIT)
  }

  /** A call during the cooldown is refused and not counted; others are counted, and three in an hour admitted. */
  lemma AdmitsExactly(c: Counter, r: Request)
    ensures var (c', admitted) := Admit(c, r);
            if r.cooldown > 0 then c' == c && !admitted
            else if r.now < c.deadline && c.count > 0 then
              c' == Counter(c.count + 1, c.deadline) && (admitted <==> c.count < 3)
            else c' == Counter(1, r.now + 3_600_000) && admitted
  {
  }

  predicate Ordered(calls: seq<Request>) {
    forall i, j | 0 <= i < j < |calls| :: calls[i].now <= calls[j].now
  }

  predicate Within(r: Request, from: Instant, until: Instant) {
    from <= r.now < until
  }

  /** The calls admitted in [from, until). */
  function Passed(c: Counter, calls: seq<Request>, from: Instant, until: Instant): nat
    decreases |calls|
  {
    if calls == [] then 0
    else
      (if Admit(c, calls[0]).1 && Within(calls[0], from, until) then 1 else 0)
      + Passed(Admit(c, calls[0]).0, calls[1..], from, until)
  }

  // What the counter still admits before `until`, the next call coming at `now`.
  function Budget(c: Counter, now: Instant, until: Instant): nat {
    if now < c.deadline
    then (if c.count < LIMIT then LIMIT - c.count else 0) + (if c.deadline < until then LIMIT else 0)
    else LIMIT
  }

  lemma {:induction false} NonePassLate(c: Counter, calls: seq<Request>, from: Instant, until: Instant)
    requires forall i | 0 <= i < |calls| :: until <= calls[i].now
    ensures Passed(c, calls, from, until) == 0
    decreases |calls|
  {
    if calls != [] { NonePassLate(Admit(c, calls[0]).0, calls[1..], from, until); }
  }

  lemma {:induction false} WithinBudget(c: Counter, calls: seq<Request>, from: Instant)
    requires Ordered(calls) && calls != [] && from <= calls[0].now < from + HOUR
    ensures Passed(c, calls, from, from + HOUR) <= Budget(c, calls[0].now, from + HOUR)
    decreases |calls|
  {
    var until := from + HOUR;
    var c' := Admit(c, calls[0]).0;
    var rest := calls[1..];
    if rest != [] {
      assert calls[0].now <= calls[1].now;
      if rest[0].now < until {
        WithinBudget(c', rest, from);
      } else {
        NonePassLate(c', rest, from, until);
      }
    }
  }

  /** Of the calls made while one counter lives, at most three pass. */
  lemma {:induction false} ThreePerWindow(c: Counter, calls: seq<Request>, from: Instant, until: Instant)
    requires forall i | 0 <= i < |calls| :: calls[i].now < c.deadline
    requires c.count >= 1
    ensures Passed(c, calls, from, until) <= if c.count < LIMIT then LIMIT - c.count else 0
    decreases |calls|
  {
    if calls != [] { ThreePerWindow(Admit(c, calls[0]).0, calls[1..], from, until); }
  }

  // A living counter has counted the call that started it.
  predicate Started(c: Counter, calls: seq<Request>) {
    c.count >= 1 || (calls != [] ==> c.deadline <= calls[0].now)
  }

  /**
   * At most five calls pass in any hour: an hour that meets two windows does not contain the call that opened
   * the first.
   */
  lemma {:induction false} FivePerHour(c: Counter, calls: seq<Request>, from: Instant)
    requires Ordered(calls) && Started(c, calls) && c.deadline < from + HOUR
    ensures Passed(c, calls, from, from + HOUR) <= 5
    decreases |calls|
  {
    if calls != [] {
      if calls[0].now < from {
        FivePerHour(Admit(c, calls[0]).0, calls[1..], from);
      } else if calls[0].now < from + HOUR {
        WithinBudget(c, calls, from);
      } else {
        NonePassLate(c, calls, from, from + HOUR);
      }
    }
  }

  /** From the first call on: any ordered run of calls, any hour. */
  lemma HourlyBound(calls: seq<Request>, from: Instant)
    requires Ordered(calls) && (forall i | 0 <= i < |calls| :: 0 <= calls[i].now)
    ensures Passed(Counter(0, 0), calls, from, from + HOUR) <= 5
  {
    if from + HOUR <= 0 {
      NonePassLate(Counter(0, 0), calls, from, from + HOUR);
    } else {
      FivePerHour(Counter(0, 0), calls, from);
    }
  }

  lemma OneCall(c: Counter, r: Request, rest: seq<Request>, from: Instant, until: Instant)
    ensures Passed(c, [r] + rest, from, until)
            == (if Admit(c, r).1 && Within(r, from, until) then 1 else 0) + Passed(Admit(c, r).0, rest, from, until)
  {
    assert ([r] + rest)[1..] == rest;
  }

  /** Five do pass in some hour: two at the end of one window and three at the start of the next. */
  lemma HourlyBoundTight()
    ensures var late, early := Request(HOUR, 0), Request(1, 0);
            var calls := [Request(0, 0)] + ([early] + ([early] + ([late] + ([late] + ([late] + [])))));
            Ordered(calls) && Passed(Counter(0, 0), calls, 1, 1 + HOUR) == 5
  {
    var late, early := Request(HOUR, 0), Request(1, 0);
    OneCall(Counter(2, 2 * HOUR), late, [], 1, 1 + HOUR);
    OneCall(Counter(1, 2 * HOUR), late, [late] + [], 1, 1 + HOUR);
    OneCall(Counter(3, HOUR), late, [late] + ([late] + []), 1, 1 + HOUR);
    OneCall(Counter(2, HOUR), early, [late] + ([late] + ([late] + [])), 1, 1 + HOUR);
    OneCall(Counter(1, HOUR), early, [early] + ([late] + ([late] + ([late] + []))), 1, 1 + HOUR);
    OneCall(Counter(0, 0), Request(0, 0), [early] + ([early] + ([late] + ([late] + ([late] + [])))), 1, 1 + HOUR);
  }
}
