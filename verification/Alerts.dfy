/** The throttle of outbound alerts: one per key and interval. */
module Alerts {
  import opened Wrappers
  import opened Sequences

  /** A question whether an alert may be sent at a moment, or the forgetting of one key or of all. */
  datatype Call = Ask(key: string, at: real) | Reset(forgotten: Option<string>)

  predicate Permits(lastSent: map<string, real>, interval: real, key: string, now: real) {
    key in lastSent ==> now - lastSent[key] >= interval
  }

  function Step(lastSent: map<string, real>, interval: real, c: Call): map<string, real> {
    match c
    case Ask(key, at) => if Permits(lastSent, interval, key, at) then lastSent[key := at] else lastSent
    case Reset(None) => map[]
    case Reset(Some(key)) => lastSent - {key}
  }

  /** What the throttle remembers after `calls`. */
  function After(calls: seq<Call>, interval: real): map<string, real> {
    if |calls| == 0 then map[] else Step(After(calls[..|calls| - 1], interval), interval, calls[|calls| - 1])
  }

  // ---------- whole runs ----------

  predicate Forgets(c: Call, key: string) {
    c.Reset? && (c.forgotten.None? || c.forgotten.value == key)
  }

  /** The moments at which alerts of `key` went out since it was last forgotten. */
  function Sent(calls: seq<Call>, interval: real, key: string): seq<real> {
    if |calls| == 0 then []
    else
      var init, last := calls[..|calls| - 1], calls[|calls| - 1];
      var before := Sent(init, interval, key);
      if Forgets(last, key) then []
      else
        var goes := last.Ask? && last.key == key && Permits(After(init, interval), interval, key, last.at);
        if goes then before + [last.at] else before
  }

  ghost predicate Chronological(calls: seq<Call>) {
    forall i, j :: 0 <= i < j < |calls| && calls[i].Ask? && calls[j].Ask? ==> calls[i].at <= calls[j].at
  }

  function Apart(interval: real): (real, real) -> bool {
    (t: real, t': real) => t' - t >= interval
  }

  ghost predicate Spaced(moments: seq<real>, interval: real) {
    Pairwise(moments, Apart(interval))
  }

  /** The throttle remembers exactly the last alert of a key. */
  lemma {:induction false} RemembersLastSent(calls: seq<Call>, interval: real, key: string)
    ensures var sent := Sent(calls, interval, key);
            && (key in After(calls, interval) <==> sent != [])
            && (sent != [] ==> After(calls, interval)[key] == sent[|sent| - 1])
  {
    if |calls| > 0 {
      RemembersLastSent(calls[..|calls| - 1], interval, key);
    }
  }

  /** One call adds at most one alert, of its own time, or forgets them all. */
  lemma {:induction false} SentStep(calls: seq<Call>, c: Call, interval: real, key: string)
    ensures var sent, before := Sent(calls + [c], interval, key), Sent(calls, interval, key);
            sent == before || sent == [] || (c.Ask? && sent == before + [c.at])
  {
    assert (calls + [c])[..|calls|] == calls;
  }

  ghost predicate NoneLater(calls: seq<Call>, now: real) {
    forall i :: 0 <= i < |calls| && calls[i].Ask? ==> calls[i].at <= now
  }

  lemma {:induction false} SentNoLater(calls: seq<Call>, interval: real, key: string, now: real)
    requires NoneLater(calls, now)
    ensures var sent := Sent(calls, interval, key); forall i :: 0 <= i < |sent| ==> sent[i] <= now
  {
    if |calls| > 0 {
      var init, last := calls[..|calls| - 1], calls[|calls| - 1];
      SentNoLater(init, interval, key, now);
      SentStep(init, last, interval, key);
      assert calls == init + [last];
    }
  }

  lemma {:induction false} SentInOrder(calls: seq<Call>, interval: real, key: string)
    requires Chronological(calls)
    ensures var sent := Sent(calls, interval, key); forall i, j :: 0 <= i < j < |sent| ==> sent[i] <= sent[j]
  {
    if |calls| > 0 {
      var init, last := calls[..|calls| - 1], calls[|calls| - 1];
      SentInOrder(init, interval, key);
      SentStep(init, last, interval, key);
      assert calls == init + [last];
      if last.Ask? {
        SentNoLater(init, interval, key, last.at);
      }
    }
  }

  /** Alerts of one key that are not parted by a reset are at least the interval apart. */
  lemma {:induction false} SentAreSpaced(calls: seq<Call>, interval: real, key: string)
    requires Chronological(calls)
    ensures Spaced(Sent(calls, interval, key), interval)
  {
    if |calls| > 0 {
      var init := calls[..|calls| - 1];
      SentAreSpaced(init, interval, key);
      SentInOrder(init, interval, key);
      RemembersLastSent(init, interval, key);
    }
  }

  lemma PrefixChronological(calls: seq<Call>, c: Call)
    requires Chronological(calls + [c])
    ensures Chronological(calls)
  {
    forall i, j | 0 <= i < j < |calls| && calls[i].Ask? && calls[j].Ask? ensures calls[i].at <= calls[j].at {
      assert (calls + [c])[i] == calls[i] && (calls + [c])[j] == calls[j];
    }
  }

  /**
   An alert is let through exactly when every alert of its key that went out since the last reset
   is at least the interval away: nothing else holds an alert back.
   */
  lemma {:induction false} PermittedIff(calls: seq<Call>, interval: real, key: string, now: real)
    requires Chronological(calls + [Ask(key, now)])
    ensures Permits(After(calls, interval), interval, key, now) <==>
            forall i :: 0 <= i < |Sent(calls, interval, key)| ==> now - Sent(calls, interval, key)[i] >= interval
  {
    assert (calls + [Ask(key, now)])[..|calls|] == calls;
    PrefixChronological(calls, Ask(key, now));
    RemembersLastSent(calls, interval, key);
    SentInOrder(calls, interval, key);
  }

  function Within(from: real, to: real): real -> bool {
    (t: real) => from <= t <= to
  }

  lemma {:induction false} Spread(moments: seq<real>, interval: real)
    requires Spaced(moments, interval) && |moments| > 0
    ensures moments[|moments| - 1] - moments[0] >= (|moments| - 1) as real * interval
  {
    if |moments| > 1 {
      var init := moments[..|moments| - 1];
      Spread(init, interval);
      var n := (|init| - 1) as real;
      assert (|moments| - 1) as real == n + 1.0 && (n + 1.0) * interval == n * interval + interval;
    }
  }

  lemma NotLess(a: real, b: real, y: real)
    requires y > 0.0 && a * y <= b * y
    ensures a <= b
  {
  }

  lemma FloorBound(n: int, x: real, y: real)
    requires y > 0.0 && n as real * y <= x
    ensures n <= (x / y).Floor
  {
    assert (x / y) * y == x;
    NotLess(n as real, x / y, y);
  }

  lemma FewInWindow(moments: seq<real>, interval: real, from: real, length: real)
    requires interval > 0.0 && length >= 0.0 && Spaced(moments, interval)
    requires forall i :: 0 <= i < |moments| ==> from <= moments[i] <= from + length
    ensures |moments| <= (length / interval).Floor + 1
  {
    if |moments| == 0 {
      assert 0.0 * interval <= length;
      FloorBound(0, length, interval);
    } else {
      Spread(moments, interval);
      assert (|moments| - 1) as real * interval <= length;
      FloorBound(|moments| - 1, length, interval);
    }
  }

  /** However long the storm, a window of length `length` holds at most so many alerts of a key. */
  lemma {:induction false} WindowIsBounded(calls: seq<Call>, interval: real, key: string, from: real, length: real)
    requires Chronological(calls) && interval > 0.0 && length >= 0.0
    ensures |Filter(Sent(calls, interval, key), Within(from, from + length))| <= (length / interval).Floor + 1
  {
    var sent, within := Sent(calls, interval, key), Within(from, from + length);
    SentAreSpaced(calls, interval, key);
    FilterKeepsPairs(sent, within, Apart(interval));
    FilterMembers(sent, within);
    var inside := Filter(sent, within);
    forall i | 0 <= i < |inside| ensures from <= inside[i] <= from + length {
      assert inside[i] in inside;
    }
    FewInWindow(inside, interval, from, length);
  }

  function Concerns(key: string): Call -> bool {
    (c: Call) => if c.Ask? then c.key == key else c.forgotten.None? || c.forgotten.value == key
  }

  /** Calls about other keys change nothing: the alerts of a key are those of its own calls. */
  lemma {:induction false} KeysAreIndependent(calls: seq<Call>, interval: real, key: string)
    ensures Sent(calls, interval, key) == Sent(Filter(calls, Concerns(key)), interval, key)
  {
    if |calls| > 0 {
      var init, last := calls[..|calls| - 1], calls[|calls| - 1];
      var own := Filter(init, Concerns(key));
      KeysAreIndependent(init, interval, key);
      RemembersLastSent(init, interval, key);
      RemembersLastSent(own, interval, key);
      if Concerns(key)(last) {
        assert (own + [last])[..|own|] == own;
      } else {
        assert own + [] == own;
      }
    }
  }

  /** A reset forgets the alerts of the keys it names and of no others. */
  lemma {:induction false} ResetForgets(calls: seq<Call>, interval: real, forgotten: Option<string>, key: string)
    ensures Sent(calls + [Call.Reset(forgotten)], interval, key) ==
            if forgotten.None? || forgotten.value == key then [] else Sent(calls, interval, key)
  {
    assert (calls + [Call.Reset(forgotten)])[..|calls|] == calls;
  }

  // ---------- the throttle ----------

  class AlertThrottle {
    const intervalSeconds: real
    var lastSent: map<string, real>
    /** Every call so far. */
    ghost var calls: seq<Call>

    /** The times kept are those of the last alerts that went out. */
    ghost predicate Valid()
      reads this
    {
      lastSent == After(calls, intervalSeconds)
    }

    constructor (interval: real)
      ensures Valid() && intervalSeconds == interval && calls == []
    {
      intervalSeconds := interval;
      lastSent := map[];
      calls := [];
    }

    /**
     With a clock that does not go back: lets the alert through exactly when every alert of this key that
     went out since the last reset is at least the interval away.
     */
    method Allow(key: string, now: real) returns (ok: bool)
      requires Valid()
      modifies this
      ensures Valid() && calls == old(calls) + [Ask(key, now)]
      ensures Chronological(calls) ==>
                (ok <==> forall i :: 0 <= i < |Sent(old(calls), intervalSeconds, key)| ==>
                           now - Sent(old(calls), intervalSeconds, key)[i] >= intervalSeconds)
      ensures Sent(calls, intervalSeconds, key) == Sent(old(calls), intervalSeconds, key) + if ok then [now] else []
    {
      if Chronological(calls + [Ask(key, now)]) {
        PermittedIff(calls, intervalSeconds, key, now);
      }
      assert (calls + [Ask(key, now)])[..|calls|] == calls;
      calls := calls + [Ask(key, now)];
      if key in lastSent && now - lastSent[key] < intervalSeconds {
        return false;
      }
      lastSent := lastSent[key := now];
      return true;
    }

    /** Forgets the alerts of one key or, without a key, of all. */
    method Reset(key: Option<string>)
      requires Valid()
      modifies this
      ensures Valid() && calls == old(calls) + [Call.Reset(key)]
      ensures forall k :: Sent(calls, intervalSeconds, k) ==
                          if key.None? || key.value == k then [] else Sent(old(calls), intervalSeconds, k)
    {
      forall k ensures Sent(calls + [Call.Reset(key)], intervalSeconds, k) ==
                       if key.None? || key.value == k then [] else Sent(calls, intervalSeconds, k) {
        ResetForgets(calls, intervalSeconds, key, k);
      }
      assert (calls + [Call.Reset(key)])[..|calls|] == calls;
      calls := calls + [Call.Reset(key)];
      if key.None? {
        lastSent := map[];
      } else {
        lastSent := lastSent - {key.value};
      }
    }
  }
}
