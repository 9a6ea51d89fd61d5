/**
 The actions of the explorer and the strings that stand for them.
 */
module Actions {
  import opened Basics
  import opened Printing

  datatype Status = Runnable | NotRunnable

  /** A goroutine as the runtime reports it. */
  datatype RoutineInfo = RoutineInfo(gid: int, gpc: nat, status: Status)

  /** What the string of an action shows: for a goroutine its process, id and program
      counter; for a timer its process and id. */
  datatype Key = ThreadKey(proc: int, gid: int, gpc: nat) | TimerKey(proc: int, id: int)

  function KeyString(key: Key): string {
    match key
    case ThreadKey(proc, gid, gpc) => "P" + Itoa(proc) + "T" + Itoa(gid) + "H" + Hex(gpc)
    case TimerKey(proc, id) => "P" + Itoa(proc) + "Ti" + Itoa(id)
  }

  function AfterProc(key: Key): string {
    match key
    case ThreadKey(_, gid, gpc) => Itoa(gid) + ['H'] + Hex(gpc)
    case TimerKey(_, id) => ['i'] + Itoa(id)
  }

  lemma PlainItoa(i: int)
    ensures Itoa(i) != "" && Itoa(i)[0] != 'i'
    ensures 'P' !in Itoa(i) && 'T' !in Itoa(i) && 'H' !in Itoa(i)
  {
    forall k | 0 <= k < |Itoa(i)| ensures Itoa(i)[k] == '-' || IsDigit(Itoa(i)[k]) {
      ItoaChars(i, k);
    }
  }

  lemma KeyStringParts(key: Key)
    ensures KeyString(key) == "P" + (Itoa(key.proc) + ['T'] + AfterProc(key))
    ensures 'P' !in Itoa(key.proc) + ['T'] + AfterProc(key)
  {
    PlainItoa(key.proc);
    match key
    case ThreadKey(proc, gid, gpc) => PlainItoa(gid);
    case TimerKey(proc, id) => PlainItoa(id);
  }

  /** Different actions have different strings. */
  lemma KeyStringInjective(a: Key, b: Key)
    requires KeyString(a) == KeyString(b)
    ensures a == b
  {
    KeyStringParts(a);
    KeyStringParts(b);
    PlainItoa(a.proc);
    PlainItoa(b.proc);
    assert KeyString(a)[1..] == Itoa(a.proc) + ['T'] + AfterProc(a);
    assert KeyString(b)[1..] == Itoa(b.proc) + ['T'] + AfterProc(b);
    CutAtMark(Itoa(a.proc), Itoa(b.proc), 'T', AfterProc(a), AfterProc(b));
    ItoaInjective(a.proc, b.proc);
    AfterProcInjective(a, b);
  }

  lemma AfterProcInjective(a: Key, b: Key)
    requires AfterProc(a) == AfterProc(b) && a.proc == b.proc
    ensures a == b
  {
    if a.ThreadKey? {
      PlainItoa(a.gid);
      assert AfterProc(a)[0] == Itoa(a.gid)[0];
    }
    if b.ThreadKey? {
      PlainItoa(b.gid);
      assert AfterProc(b)[0] == Itoa(b.gid)[0];
    }
    if a.ThreadKey? && b.ThreadKey? {
      CutAtMark(Itoa(a.gid), Itoa(b.gid), 'H', Hex(a.gpc), Hex(b.gpc));
      ItoaInjective(a.gid, b.gid);
      HexInjective(a.gpc, b.gpc);
    } else if a.TimerKey? && b.TimerKey? {
      assert AfterProc(a)[1..] == Itoa(a.id) && AfterProc(b)[1..] == Itoa(b.id);
      ItoaInjective(a.id, b.id);
    }
  }

  /** A schedule is written as the strings of its actions, one after the other. */
  function ScheduleString(path: seq<Key>): string {
    if path == [] then "" else ScheduleString(path[..|path| - 1]) + KeyString(path[|path| - 1])
  }

  lemma ScheduleAfter(path: seq<Key>, key: Key)
    ensures ScheduleString(path + [key]) == ScheduleString(path) + KeyString(key)
  {
    assert (path + [key])[..|path|] == path;
  }

  lemma SomethingWritten(path: seq<Key>)
    ensures ScheduleString(path) == "" <==> path == []
  {
    if path != [] {
      KeyStringParts(path[|path| - 1]);
    }
  }

  /** A schedule can be read back from its string: no two schedules share one. */
  lemma {:induction false} SchedulesDecodable(a: seq<Key>, b: seq<Key>)
    requires ScheduleString(a) == ScheduleString(b)
    ensures a == b
    decreases |a|, 1
  {
    SomethingWritten(a);
    SomethingWritten(b);
    if a != [] && b != [] {
      LastSplit(a);
      LastSplit(b);
      StepsDecodable(a[..|a| - 1], a[|a| - 1], b[..|b| - 1], b[|b| - 1]);
    }
  }

  lemma {:induction false} StepsDecodable(a: seq<Key>, x: Key, b: seq<Key>, y: Key)
    requires ScheduleString(a + [x]) == ScheduleString(b + [y])
    ensures a + [x] == b + [y]
    decreases |a| + 1, 0
  {
    ScheduleAfter(a, x);
    ScheduleAfter(b, y);
    LastActionDecodable(ScheduleString(a), x, ScheduleString(b), y);
    SchedulesDecodable(a, b);
  }

  /** The last 'P' starts the last action. */
  lemma LastActionDecodable(s: string, a: Key, t: string, b: Key)
    requires s + KeyString(a) == t + KeyString(b)
    ensures s == t && a == b
  {
    KeyStringParts(a);
    KeyStringParts(b);
    var x := Itoa(a.proc) + ['T'] + AfterProc(a);
    var y := Itoa(b.proc) + ['T'] + AfterProc(b);
    assert s + ['P'] + x == s + KeyString(a);
    assert t + ['P'] + y == t + KeyString(b);
    CutAtLastMark(s, t, 'P', x, y);
    KeyStringInjective(a, b);
  }

  /** For example. */
  lemma KeyStringsLookLikeThis()
    ensures KeyString(ThreadKey(1, 12, 255)) == "P1T12Hff" && KeyString(TimerKey(2, 3)) == "P2Ti3"
  {
    assert Digits(1, 10) == "1" && Digits(2, 10) == "2" && Digits(3, 10) == "3";
    assert Digits(12, 10) == Digits(1, 10) + "2" && Digits(255, 16) == Digits(15, 16) + "f";
    assert Digits(15, 16) == "f";
  }
}
