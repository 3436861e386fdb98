/**
 * The operation log of server.js: an in-memory, most-recent-first list of
 * "[time] message" entries capped at MAX_LOGS.
 */
module OpLog {

  /** MAX_LOGS. */
  const MaxLogs: nat := 100

  /**
   * The entry text ogLog builds, `[${time}] ${message}`: the time in
   * brackets, a space, and the message, at positions fixed by the time's
   * length.
   */
  function Entry(time: string, message: string): (e: string)
    ensures |e| == |time| + |message| + 3
    ensures e[0] == '[' && e[1..|time| + 1] == time
    ensures e[|time| + 1..|time| + 3] == "] " && e[|time| + 3..] == message
  {
    "[" + time + "] " + message
  }

  /** The index of the first `c` in `s`, or `|s|` when there is none. */
  function IndexOf(s: string, c: char): (k: nat)
    ensures k <= |s|
    ensures k < |s| ==> s[k] == c
    ensures forall j :: 0 <= j < k ==> s[j] != c
    decreases |s|
  {
    if s == [] then 0 else if s[0] == c then 0 else 1 + IndexOf(s[1..], c)
  }

  /**
   * Reads the time back out of an entry: the text between the opening `[`
   * and the first `]`.
   */
  function TimeOf(e: string): string
  {
    if IndexOf(e, ']') == 0 then "" else e[1..IndexOf(e, ']')]
  }

  /** Reads the message back out of an entry: all that follows the first `] `. */
  function MessageOf(e: string): string
  {
    if IndexOf(e, ']') + 2 <= |e| then e[IndexOf(e, ']') + 2..] else ""
  }

  /**
   * For times without a `]` (a `toLocaleString` reading has none), the
   * first `]` of an entry ends the time, so both the time and the message
   * can be read back out of the entry.
   */
  lemma EntryRoundTrip(time: string, message: string)
    requires ']' !in time
    ensures TimeOf(Entry(time, message)) == time
    ensures MessageOf(Entry(time, message)) == message
  {
    var e := Entry(time, message);
    assert e[|time| + 1] == ']';
    assert forall j :: 0 <= j < |time| + 1 ==> e[j] != ']' by {
      forall j | 0 <= j < |time| + 1 ensures e[j] != ']' {
        if j > 0 {
          assert e[j] == time[j - 1];
        }
      }
    }
    assert IndexOf(e, ']') == |time| + 1;
  }

  /** Hence two entries with such times are equal only when their times and messages are. */
  lemma EntryInjective(t1: string, m1: string, t2: string, m2: string)
    requires ']' !in t1 && ']' !in t2
    requires Entry(t1, m1) == Entry(t2, m2)
    ensures t1 == t2 && m1 == m2
  {
    EntryRoundTrip(t1, m1);
    EntryRoundTrip(t2, m2);
  }

  /**
   * The log after one ogLog call that adds entry `e`: `e` is at the head,
   * every earlier entry moves one place later, and once the log would hold
   * more than MaxLogs the previous last entry is gone.
   */
  function Pushed(log: seq<string>, e: string): (r: seq<string>)
    ensures |log| < MaxLogs ==> |r| == |log| + 1
    ensures |log| >= MaxLogs ==> |r| == |log|
    ensures r[0] == e
    ensures forall i :: 0 < i < |r| ==> r[i] == log[i - 1]
  {
    var u := [e] + log;
    if |u| > MaxLogs then u[..|u| - 1] else u
  }

  /** The log after adding the entries `es`, oldest first, one ogLog call each. */
  function Replay(log: seq<string>, es: seq<string>): seq<string>
    decreases |es|
  {
    if es == [] then log else Pushed(Replay(log, es[..|es| - 1]), es[|es| - 1])
  }

  /** However many calls, a log that starts within the cap stays within it. */
  lemma {:induction false} ReplayBounded(log: seq<string>, es: seq<string>)
    requires |log| <= MaxLogs
    ensures |Replay(log, es)| <= MaxLogs
    decreases |es|
  {
    if es != [] {
      ReplayBounded(log, es[..|es| - 1]);
    }
  }

  /**
   * From the empty log, the log holds the last min(n, MaxLogs) entries,
   * newest first.
   */
  lemma {:induction false} ReplayFromEmpty(es: seq<string>)
    ensures |Replay([], es)| == if |es| < MaxLogs then |es| else MaxLogs
    ensures forall i :: 0 <= i < |Replay([], es)| ==> Replay([], es)[i] == es[|es| - 1 - i]
    decreases |es|
  {
    if es != [] {
      var front := es[..|es| - 1];
      ReplayFromEmpty(front);
      var r := Replay([], es);
      forall i | 0 < i < |r|
        ensures r[i] == es[|es| - 1 - i]
      {
        assert r[i] == Replay([], front)[i - 1];
      }
    }
  }

  /**
   * After MaxLogs + 1 calls from the empty log there are MaxLogs entries,
   * the head is the last entry added, and the first entry added is gone
   * (when no later call logged the same text).
   */
  lemma OverflowDropsOldest(es: seq<string>)
    requires |es| == MaxLogs + 1
    ensures |Replay([], es)| == MaxLogs
    ensures Replay([], es)[0] == es[MaxLogs]
    ensures forall i :: 0 <= i < MaxLogs ==> Replay([], es)[i] == es[MaxLogs - i]
    ensures (forall j :: 1 <= j <= MaxLogs ==> es[j] != es[0]) ==> es[0] !in Replay([], es)
  {
    ReplayFromEmpty(es);
  }

  /** The global `logs` array together with ogLog. */
  class OperationLog {
    var entries: seq<string>

    ghost predicate Valid()
      reads this
    {
      |entries| <= MaxLogs
    }

    /** `const logs = []`. */
    constructor ()
      ensures Valid() && entries == []
    {
      entries := [];
    }

    /** ogLog(message), with the formatted clock reading passed in as `time`. */
    method Log(time: string, message: string)
      requires Valid()
      modifies this
      ensures Valid()
      ensures entries == Pushed(old(entries), Entry(time, message))
    {
      var entry := Entry(time, message);
      entries := [entry] + entries;
      if |entries| > MaxLogs {
        entries := entries[..|entries| - 1];
      }
    }
  }
}
