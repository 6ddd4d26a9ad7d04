/**
 The token bucket and the per-identity limiter (`internal/api/ratelimit.go`), against an exact
 description by windows: a call is admitted if and only if no window of calls ending with it
 would hold more admissions than the burst plus what refills during that window.
 */
module RateLimit {

  // ------------------------------------------------------------------ windows, measured in credit

  /** Admissions among the answers from `i` on. */
  function Admitted(answers: seq<bool>, i: int): nat
    requires 0 <= i <= |answers|
    decreases |answers|
  {
    if i == |answers| then 0
    else Admitted(answers[..|answers| - 1], i) + if answers[|answers| - 1] then 1 else 0
  }

  /** The tokens that have accrued by time `t`, counted from time zero. */
  function Credit(rate: real, t: real): real { rate * t }

  function Credits(rate: real, times: seq<real>): (r: seq<real>)
    ensures |r| == |times|
  {
    if times == [] then [] else Credits(rate, times[..|times| - 1]) + [Credit(rate, times[|times| - 1])]
  }

  /** What the window from call `i` up to credit `c` allows beyond the admissions it has. */
  function Room(burst: real, credits: seq<real>, answers: seq<bool>, i: int, c: real): real
    requires 0 <= i <= |answers| && i < |credits|
  {
    burst + c - credits[i] - Admitted(answers, i) as real
  }

  ghost predicate HasRoom(burst: real, credits: seq<real>, answers: seq<bool>)
    requires |credits| == |answers| + 1
  {
    var c := credits[|answers|];
    forall i :: 0 <= i < |credits| ==> Room(burst, credits, answers, i, c) >= 1.0
  }

  /** The answers to a sequence of calls: each is admitted if every window has room for it. */
  ghost function AnswersOn(burst: real, credits: seq<real>): (r: seq<bool>)
    ensures |r| == |credits|
  {
    if credits == [] then []
    else
      var before := AnswersOn(burst, credits[..|credits| - 1]);
      before + [HasRoom(burst, credits, before)]
  }

  /** The answers are determined by the times of the calls alone. */
  ghost function Answers(rate: real, burst: real, times: seq<real>): (r: seq<bool>)
    ensures |r| == |times|
  {
    AnswersOn(burst, Credits(rate, times))
  }

  lemma AnsweredOneMore(answers: seq<bool>, admitted: bool, i: int)
    requires 0 <= i <= |answers|
    ensures Admitted(answers + [admitted], i) == Admitted(answers, i) + if admitted then 1 else 0
  {
    assert (answers + [admitted])[..|answers|] == answers;
  }

  // ------------------------------------------------------------------ the level of a bucket

  /** The tokens left at credit `c` are the burst or the least room of all windows so far. */
  ghost predicate IsLevel(burst: real, credits: seq<real>, answers: seq<bool>, c: real, tokens: real)
    requires |credits| == |answers|
  {
    && tokens <= burst && (forall i :: 0 <= i < |credits| ==> tokens <= Room(burst, credits, answers, i, c))
    && (tokens == burst || exists i :: 0 <= i < |credits| && tokens == Room(burst, credits, answers, i, c))
  }

  function Least(a: real, b: real): (m: real)
    ensures m <= a && m <= b && (m == a || m == b)
  {
    if a <= b then a else b
  }

  /** That level, computed. */
  function LeastRoom(burst: real, credits: seq<real>, answers: seq<bool>, n: nat, c: real): real
    requires n <= |credits| == |answers|
  {
    if n == 0 then burst else Least(LeastRoom(burst, credits, answers, n - 1, c),
                                    Room(burst, credits, answers, n - 1, c))
  }

  lemma {:induction false} LeastRoomIsLeast(burst: real, credits: seq<real>, answers: seq<bool>, n: nat, c: real)
    requires n <= |credits| == |answers|
    ensures var least := LeastRoom(burst, credits, answers, n, c);
            && least <= burst && (forall i :: 0 <= i < n ==> least <= Room(burst, credits, answers, i, c))
            && (least == burst || exists i :: 0 <= i < n && least == Room(burst, credits, answers, i, c))
  {
    if n > 0 {
      LeastRoomIsLeast(burst, credits, answers, n - 1, c);
    }
  }

  lemma LevelIsUnique(burst: real, credits: seq<real>, answers: seq<bool>, c: real, tokens: real)
    requires |credits| == |answers|
    ensures IsLevel(burst, credits, answers, c, tokens) <==> tokens == LeastRoom(burst, credits, answers, |credits|, c)
  {
    LeastRoomIsLeast(burst, credits, answers, |credits|, c);
  }

  /** Refilling keeps the level the least room, now with the window that starts at this call. */
  lemma RefillIsLevel(burst: real, credits: seq<real>, answers: seq<bool>, last: real, tokens: real, c: real)
    requires |credits| == |answers| && IsLevel(burst, credits, answers, last, tokens) && last <= c
    ensures var level := Least(burst, tokens + c - last);
            && (forall i :: 0 <= i <= |credits| ==> level <= Room(burst, credits + [c], answers, i, c))
            && (exists i :: 0 <= i <= |credits| && level == Room(burst, credits + [c], answers, i, c))
  {
    var n, longer := |credits|, credits + [c];
    var level := Least(burst, tokens + c - last);
    assert Room(burst, longer, answers, n, c) == burst;
    forall i | 0 <= i < n
      ensures Room(burst, longer, answers, i, c) == Room(burst, credits, answers, i, last) + c - last
    {
      assert longer[i] == credits[i];
    }
    if level == burst {
      assert level == Room(burst, longer, answers, n, c);
    } else {
      var i :| 0 <= i < n && tokens == Room(burst, credits, answers, i, last);
      assert level == Room(burst, longer, answers, i, c);
    }
  }

  lemma LevelDecides(burst: real, longer: seq<real>, answers: seq<bool>, level: real)
    requires |longer| == |answers| + 1
    requires forall i :: 0 <= i < |longer| ==> level <= Room(burst, longer, answers, i, longer[|answers|])
    requires exists i :: 0 <= i < |longer| && level == Room(burst, longer, answers, i, longer[|answers|])
    ensures level >= 1.0 <==> HasRoom(burst, longer, answers)
  {
  }

  /** Taking a token lowers every window's room alike. */
  lemma TakingIsLevel(burst: real, longer: seq<real>, answers: seq<bool>, c: real, level: real, admitted: bool)
    requires |longer| == |answers| + 1 && level <= burst
    requires forall i :: 0 <= i < |longer| ==> level <= Room(burst, longer, answers, i, c)
    requires exists i :: 0 <= i < |longer| && level == Room(burst, longer, answers, i, c)
    ensures IsLevel(burst, longer, answers + [admitted], c, if admitted then level - 1.0 else level)
  {
    var next := answers + [admitted];
    forall i | 0 <= i < |longer|
      ensures Room(burst, longer, next, i, c) == Room(burst, longer, answers, i, c) - if admitted then 1.0 else 0.0
    {
      AnsweredOneMore(answers, admitted, i);
    }
    var i :| 0 <= i < |longer| && level == Room(burst, longer, answers, i, c);
    assert Room(burst, longer, next, i, c) == if admitted then level - 1.0 else level;
  }

  /** One call, on credit: the refilled level decides it, and what is left is again the least
      room. */
  lemma CallIsExact(burst: real, credits: seq<real>, last: real, tokens: real, c: real)
    requires last <= c && IsLevel(burst, credits, AnswersOn(burst, credits), last, tokens)
    ensures var level, longer := Least(burst, tokens + c - last), credits + [c];
            && AnswersOn(burst, longer) == AnswersOn(burst, credits) + [level >= 1.0]
            && IsLevel(burst, longer, AnswersOn(burst, longer), c, if level >= 1.0 then level - 1.0 else level)
  {
    var answers, longer := AnswersOn(burst, credits), credits + [c];
    var level := Least(burst, tokens + c - last);
    RefillIsLevel(burst, credits, answers, last, tokens, c);
    assert longer[..|credits|] == credits && longer[|answers|] == c;
    LevelDecides(burst, longer, answers, level);
    TakingIsLevel(burst, longer, answers, c, level, level >= 1.0);
  }

  // ------------------------------------------------------------------ windows, measured in time

  predicate Ascending(times: seq<real>) {
    forall i, j :: 0 <= i <= j < |times| ==> times[i] <= times[j]
  }

  lemma NonNegative(a: real, b: real)
    requires a >= 0.0 && b >= 0.0
    ensures a * b >= 0.0
  {
  }

  lemma CreditAccrues(rate: real, last: real, now: real)
    ensures rate * (now - last) == Credit(rate, now) - Credit(rate, last)
    ensures rate >= 0.0 && last <= now ==> Credit(rate, last) <= Credit(rate, now)
  {
    if rate >= 0.0 && last <= now {
      NonNegative(rate, now - last);
    }
  }

  lemma {:induction false} CreditAt(rate: real, times: seq<real>, i: nat)
    requires i < |times|
    ensures Credits(rate, times)[i] == Credit(rate, times[i])
  {
    if i < |times| - 1 {
      CreditAt(rate, times[..|times| - 1], i);
    }
  }

  lemma {:induction false} AnswersPrefix(burst: real, credits: seq<real>, n: nat)
    requires n <= |credits|
    ensures AnswersOn(burst, credits[..n]) == AnswersOn(burst, credits)[..n]
  {
    if n < |credits| {
      AnswersPrefix(burst, credits[..|credits| - 1], n);
      assert credits[..|credits| - 1][..n] == credits[..n];
    } else {
      assert credits[..n] == credits;
    }
  }

  /** Admissions from call `i` up to, not including, call `j`. */
  function AdmittedIn(answers: seq<bool>, i: nat, j: nat): nat
    requires i <= j <= |answers|
  {
    Admitted(answers[..j], i)
  }

  ghost predicate WindowFits(rate: real, burst: real, times: seq<real>, answers: seq<bool>, i: nat, j: nat)
    requires i <= j < |times| && |answers| == |times|
  {
    1.0 + AdmittedIn(answers, i, j) as real <= Allowance(rate, burst, times, i, j)
  }

  lemma RoomIsWindow(rate: real, burst: real, times: seq<real>, answers: seq<bool>, i: nat, j: nat)
    requires i <= j < |times| == |answers|
    ensures Room(burst, Credits(rate, times)[..j + 1], answers[..j], i, Credits(rate, times)[j]) >= 1.0
       <==> WindowFits(rate, burst, times, answers, i, j)
  {
    CreditAt(rate, times, i);
    CreditAt(rate, times, j);
    CreditAccrues(rate, times[i], times[j]);
  }

  lemma AnswerAt(burst: real, credits: seq<real>, j: nat)
    requires j < |credits|
    ensures AnswersOn(burst, credits)[j] <==> HasRoom(burst, credits[..j + 1], AnswersOn(burst, credits)[..j])
  {
    AnswersPrefix(burst, credits, j + 1);
    AnswersPrefix(burst, credits, j);
    assert credits[..j + 1][..j] == credits[..j];
    assert AnswersOn(burst, credits)[j] == AnswersOn(burst, credits[..j + 1])[j];
  }

  /** Call `j` is admitted if and only if, for every earlier or equal call `i`, admitting it keeps
      the admissions of the window from `i` to `j` within the burst plus the window's refill. */
  lemma AdmittedIff(rate: real, burst: real, times: seq<real>, j: nat)
    requires j < |times|
    ensures var answers := Answers(rate, burst, times);
            answers[j] <==> forall i: nat :: i <= j ==> WindowFits(rate, burst, times, answers, i, j)
  {
    var credits, answers := Credits(rate, times), Answers(rate, burst, times);
    var upTo, before, c := credits[..j + 1], answers[..j], credits[j];
    AnswerAt(burst, credits, j);
    forall i: nat | i <= j
      ensures Room(burst, upTo, before, i, c) >= 1.0 <==> WindowFits(rate, burst, times, answers, i, j)
    {
      RoomIsWindow(rate, burst, times, answers, i, j);
    }
    assert upTo[j] == c;
    if answers[j] {
      forall i: nat | i <= j
        ensures WindowFits(rate, burst, times, answers, i, j)
      {
        assert Room(burst, upTo, before, i, c) >= 1.0;
      }
    }
    if forall i: nat :: i <= j ==> WindowFits(rate, burst, times, answers, i, j) {
      forall i | 0 <= i <= j
        ensures Room(burst, upTo, before, i, c) >= 1.0
      {
        assert WindowFits(rate, burst, times, answers, i, j);
      }
    }
  }

  /** The burst plus the refill of the window from call `i` to call `j`. */
  function Allowance(rate: real, burst: real, times: seq<real>, i: nat, j: nat): real
    requires i < |times| && j < |times|
  {
    burst + rate * (times[j] - times[i])
  }

  lemma AllowanceGrows(rate: real, burst: real, times: seq<real>, i: nat, j: nat, later: nat)
    requires rate >= 0.0 && Ascending(times) && i < |times| && j <= later < |times|
    ensures Allowance(rate, burst, times, i, i) == burst
    ensures Allowance(rate, burst, times, i, j) <= Allowance(rate, burst, times, i, later)
  {
    CreditAccrues(rate, times[i], times[i]);
    CreditAccrues(rate, times[i], times[j]);
    CreditAccrues(rate, times[i], times[later]);
    CreditAccrues(rate, times[j], times[later]);
  }

  /** So no window ever holds more admissions than the burst plus its refill. */
  lemma {:induction false} WindowsAreBounded(rate: real, burst: real, times: seq<real>, i: nat, j: nat)
    requires rate >= 0.0 && burst >= 0.0 && Ascending(times) && i <= j < |times|
    ensures AdmittedIn(Answers(rate, burst, times), i, j + 1) as real <= Allowance(rate, burst, times, i, j)
    decreases j
  {
    var answers := Answers(rate, burst, times);
    assert answers[..j + 1] == answers[..j] + [answers[j]];
    AnsweredOneMore(answers[..j], answers[j], i);
    if answers[j] {
      AdmittedIff(rate, burst, times, j);
      assert WindowFits(rate, burst, times, answers, i, j);
    } else if i < j {
      WindowsAreBounded(rate, burst, times, i, j - 1);
      AllowanceGrows(rate, burst, times, i, j - 1, j);
    } else {
      AllowanceGrows(rate, burst, times, i, i, i);
    }
  }

  // ------------------------------------------------------------------ the bucket

  /** The state of a bucket: its tokens are the least room of the calls it has answered. */
  ghost predicate Level(rate: real, burst: real, times: seq<real>, last: real, tokens: real) {
    tokens == LeastRoom(burst, Credits(rate, times), Answers(rate, burst, times), |times|, Credit(rate, last))
  }

  function Refilled(rate: real, burst: real, tokens: real, elapsed: real): real {
    Least(burst, tokens + elapsed * rate)
  }

  lemma RefillsByCredit(rate: real, burst: real, tokens: real, last: real, now: real)
    requires rate >= 0.0 && last <= now
    ensures Refilled(rate, burst, tokens, now - last) == Least(burst, tokens + Credit(rate, now) - Credit(rate, last))
    ensures 0.0 <= tokens <= burst ==> 0.0 <= Refilled(rate, burst, tokens, now - last) <= burst
    ensures Credit(rate, last) <= Credit(rate, now)
  {
    CreditAccrues(rate, last, now);
  }

  lemma CreditsAppend(rate: real, times: seq<real>, now: real)
    ensures Credits(rate, times + [now]) == Credits(rate, times) + [Credit(rate, now)]
  {
    assert (times + [now])[..|times|] == times;
  }

  lemma CallKeepsLevel(rate: real, burst: real, times: seq<real>, last: real, tokens: real, now: real)
    requires rate >= 0.0 && last <= now && 0.0 <= tokens <= burst && Level(rate, burst, times, last, tokens)
    ensures var level := Refilled(rate, burst, tokens, now - last);
            && 0.0 <= level <= burst
            && Answers(rate, burst, times + [now]) == Answers(rate, burst, times) + [level >= 1.0]
            && Level(rate, burst, times + [now], now, if level >= 1.0 then level - 1.0 else level)
  {
    RefillsByCredit(rate, burst, tokens, last, now);
    CreditsAppend(rate, times, now);
    CallOnCredit(burst, Credits(rate, times), Credit(rate, last), tokens, Credit(rate, now));
  }

  lemma CallOnCredit(burst: real, credits: seq<real>, last: real, tokens: real, c: real)
    requires last <= c && tokens == LeastRoom(burst, credits, AnswersOn(burst, credits), |credits|, last)
    ensures var level, longer := Least(burst, tokens + c - last), credits + [c];
            && AnswersOn(burst, longer) == AnswersOn(burst, credits) + [level >= 1.0]
            && (if level >= 1.0 then level - 1.0 else level)
               == LeastRoom(burst, longer, AnswersOn(burst, longer), |longer|, c)
  {
    var level, longer := Least(burst, tokens + c - last), credits + [c];
    LevelIsUnique(burst, credits, AnswersOn(burst, credits), last, tokens);
    CallIsExact(burst, credits, last, tokens, c);
    LevelIsUnique(burst, longer, AnswersOn(burst, longer), c, if level >= 1.0 then level - 1.0 else level);
  }

  class TokenBucket {
    var tokens: real
    var lastRefill: real
    const rate: real
    const burst: real
    /** When the bucket has been asked so far. */
    ghost var times: seq<real>

    ghost predicate Valid()
      reads this
    {
      && rate >= 0.0 && burst >= 0.0 && 0.0 <= tokens <= burst
      && Level(rate, burst, times, lastRefill, tokens)
    }

    constructor (rate: real, burst: real, now: real)
      requires rate >= 0.0 && burst >= 0.0
      ensures Valid() && this.rate == rate && this.burst == burst && times == [] && lastRefill == now
    {
      this.tokens, this.lastRefill, this.rate, this.burst := burst, now, rate, burst;
      times := [];
    }

    /** The answer depends on nothing but the times of this bucket's calls. */
    method Allow(now: real) returns (ok: bool)
      requires Valid() && lastRefill <= now
      modifies this
      ensures Valid() && times == old(times) + [now] && lastRefill == now
      ensures Answers(rate, burst, times) == Answers(rate, burst, old(times)) + [ok]
    {
      CallKeepsLevel(rate, burst, times, lastRefill, tokens, now);
      var elapsed := now - lastRefill;
      lastRefill := now;
      times := times + [now];
      tokens := Refilled(rate, burst, tokens, elapsed);
      if tokens < 1.0 {
        return false;
      }
      tokens := tokens - 1.0;
      ok := true;
    }
  }

  // ------------------------------------------------------------------ one bucket per identity

  datatype Call = Call(identity: string, at: real)

  /** The times of one identity's calls. */
  function CallsOf(calls: seq<Call>, identity: string): seq<real> {
    if calls == [] then []
    else
      var last := calls[|calls| - 1];
      CallsOf(calls[..|calls| - 1], identity) + if last.identity == identity then [last.at] else []
  }

  lemma CallsOfAppend(calls: seq<Call>, call: Call, identity: string)
    ensures CallsOf(calls + [call], identity)
         == CallsOf(calls, identity) + if call.identity == identity then [call.at] else []
  {
    assert (calls + [call])[..|calls|] == calls;
  }

  /** One more call changes the calls of its own identity only. */
  lemma CallsOfOne(calls: seq<Call>, call: Call)
    ensures CallsOf(calls + [call], call.identity) == CallsOf(calls, call.identity) + [call.at]
    ensures forall x :: x != call.identity ==> CallsOf(calls + [call], x) == CallsOf(calls, x)
  {
    forall x
      ensures CallsOf(calls + [call], x) == CallsOf(calls, x) + if call.identity == x then [call.at] else []
    {
      CallsOfAppend(calls, call, x);
    }
  }

  class RateLimiter {
    var buckets: map<string, TokenBucket>
    const rate: real
    const burst: real
    /** Every call so far, of all identities. */
    ghost var calls: seq<Call>
    ghost var clock: real

    ghost predicate BucketFits(identity: string)
      requires identity in buckets
      reads this, buckets.Values
    {
      var b := buckets[identity];
      && b.Valid() && b.rate == rate && b.burst == burst && b.lastRefill <= clock && b.times == CallsOf(calls, identity)
    }

    ghost predicate Valid()
      reads this, buckets.Values
    {
      && rate >= 0.0 && burst >= 0.0
      && (forall x :: x in buckets ==> BucketFits(x))
      && (forall x :: x !in buckets ==> CallsOf(calls, x) == [])
      && (forall x, y :: x in buckets && y in buckets && buckets[x] == buckets[y] ==> x == y)
    }

    constructor (rate: real, burst: real, now: real)
      requires rate >= 0.0 && burst >= 0.0
      ensures Valid() && this.rate == rate && this.burst == burst && calls == [] && buckets == map[] && clock == now
    {
      this.buckets, this.rate, this.burst := map[], rate, burst;
      calls, clock := [], now;
    }

    /** The identity's bucket, created lazily on first use. */
    method BucketFor(identity: string, made: real) returns (b: TokenBucket)
      requires Valid() && clock <= made
      modifies this`buckets, this`clock
      ensures Valid() && clock == made && identity in buckets && b == buckets[identity]
      ensures if identity in old(buckets) then buckets == old(buckets)
              else fresh(b) && buckets == old(buckets)[identity := b]
    {
      clock := made;
      if identity !in buckets {
        b := new TokenBucket(rate, burst, made);
        buckets := buckets[identity := b];
      } else {
        b := buckets[identity];
      }
    }

    method Ask(identity: string, now: real) returns (ok: bool)
      requires Valid() && identity in buckets && clock <= now
      modifies this`calls, this`clock, buckets[identity]
      ensures Valid() && calls == old(calls) + [Call(identity, now)] && clock == now
      ensures Answers(rate, burst, CallsOf(calls, identity))
              == Answers(rate, burst, old(CallsOf(calls, identity))) + [ok]
    {
      ghost var before := calls;
      calls, clock := calls + [Call(identity, now)], now;
      ok := buckets[identity].Allow(now);
      CallsOfOne(before, Call(identity, now));
      assert BucketFits(identity);
      assert forall x :: x in buckets && x != identity ==> unchanged(buckets[x]);
    }

    /** The answer is the one this identity's own calls determine, whatever the others do.  A new
        bucket reads the clock when it is made, and every call reads it again. */
    method Allow(identity: string, made: real, now: real) returns (ok: bool)
      requires Valid() && clock <= made <= now
      modifies this, buckets.Values
      ensures Valid() && calls == old(calls) + [Call(identity, now)] && clock == now
      ensures identity in buckets
              && if identity in old(buckets) then buckets == old(buckets)
                 else fresh(buckets[identity]) && buckets == old(buckets)[identity := buckets[identity]]
      ensures Answers(rate, burst, CallsOf(calls, identity))
              == Answers(rate, burst, old(CallsOf(calls, identity))) + [ok]
    {
      var b := BucketFor(identity, made);
      assert fresh(b) || b in old(buckets).Values;
      ok := Ask(identity, now);
    }
  }
}
