/** The run time of Sequential and Parallel commands in terms of their properties. */
module SequentialTime {
  import opened Commands
  import opened Schedules
  import opened RunTime
  import ParallelCommands

  lemma {:induction false} TotalTimeOfSuffix(a: seq<Slot>, b: seq<Slot>, n: nat, fast: bool)
    requires n <= |b|
    ensures TotalTime(a + b, |a| + n, fast) == TotalTime(b, n, fast)
    decreases |b| - n
  {
    if n < |b| { TotalTimeOfSuffix(a, b, n + 1, fast); }
  }

  lemma {:induction false} TotalTimeOfConcat(a: seq<Slot>, b: seq<Slot>, n: nat, fast: bool)
    requires n <= |a|
    ensures TotalTime(a + b, n, fast) == TotalTime(a, n, fast) + TotalTime(b, 0, fast)
    decreases |a| - n
  {
    if n < |a| {
      TotalTimeOfConcat(a, b, n + 1, fast);
    } else {
      TotalTimeOfSuffix(a, b, 0, fast);
    }
  }

  lemma {:induction false} TotalTimeOfRepeat(round: seq<Slot>, k: nat, fast: bool)
    ensures TotalTime(Repeat(round, k), 0, fast) == k * TotalTime(round, 0, fast)
  {
    if k > 0 {
      TotalTimeOfRepeat(round, k - 1, fast);
      TotalTimeOfConcat(Repeat(round, k - 1), round, 0, fast);
    }
  }

  /** repeatCount + 1 rounds, then the finally commands. */
  lemma TimeOfSequential(p: Props, fast: bool)
    ensures BodyTime(Script(Schedule(p), OnTermination(p)), fast)
         == (p.repeatCount + 1) * TotalTime(Round(p), 0, fast) + TotalTime(p.finallySlots, 0, fast)
  {
    TotalTimeOfRepeat(Round(p), p.repeatCount + 1, fast);
    TotalTimeOfConcat(Tries(p), p.finallySlots, 0, fast);
  }

  lemma {:induction false} TotalTimeOfRows(data: seq<seq<Slot>>, n: nat, t: nat, fast: bool)
    requires n <= |data|
    requires forall i :: 0 <= i < |data| ==> TotalTime(data[i], 0, fast) == t
    ensures TotalTime(Rows(data), n, fast) == (|data| - n) * t
    decreases |data| - n
  {
    if n < |data| {
      TotalTimeOfRows(data, n + 1, t, fast);
      assert (|data| - n) * t == t + (|data| - (n + 1)) * t;
    }
  }

  /** With data whose items all take the same time, a round takes the data length times that time. */
  lemma TimeOfSequentialWithData(p: Props, t: nat, fast: bool)
    requires p.data != [] && forall i :: 0 <= i < |p.data| ==> TotalTime(p.data[i], 0, fast) == t
    ensures BodyTime(Script(Schedule(p), OnTermination(p)), fast)
         == (p.repeatCount + 1) * (|p.data| * t) + TotalTime(p.finallySlots, 0, fast)
  {
    TimeOfSequential(p, fast);
    TotalTimeOfRows(p.data, 0, t, fast);
  }

  lemma {:induction false} LongestIsMaximum(slots: seq<Slot>, n: nat, fast: bool)
    requires n <= |slots|
    ensures forall i :: n <= i < |slots| ==> SlotTime(slots[i], fast) <= LongestTime(slots, n, fast)
    ensures n < |slots| ==> exists i :: n <= i < |slots| && SlotTime(slots[i], fast) == LongestTime(slots, n, fast)
    decreases |slots| - n
  {
    if n < |slots| {
      LongestIsMaximum(slots, n + 1, fast);
      if SlotTime(slots[n], fast) < LongestTime(slots, n + 1, fast) {
        var i :| n + 1 <= i < |slots| && SlotTime(slots[i], fast) == LongestTime(slots, n + 1, fast);
      }
    }
  }

  /** The times of what a Parallel command runs side by side: of its commands, or of its list for each datum. */
  function TimesOf(commands: seq<Slot>, data: seq<seq<Slot>>, fast: bool): seq<nat> {
    if commands == [] then []
    else if data == [] then seq(|commands|, i requires 0 <= i < |commands| => SlotTime(commands[i], fast))
    else seq(|data|, i requires 0 <= i < |data| => TotalTime(data[i], 0, fast))
  }

  /** A Parallel command takes as long as the longest of these, and no time without any. */
  lemma TimeOfParallel(commands: seq<Slot>, data: seq<seq<Slot>>, fast: bool)
    ensures var times := TimesOf(commands, data, fast);
            var t := BodyTime(Fork(ParallelCommands.Branches(commands, data)), fast);
            && (forall i :: 0 <= i < |times| ==> times[i] <= t)
            && (if times == [] then t == 0 else t in times)
  {
    var branches := ParallelCommands.Branches(commands, data);
    var times := TimesOf(commands, data, fast);
    LongestIsMaximum(branches, 0, fast);
    assert |times| == |branches| && forall i :: 0 <= i < |branches| ==> times[i] == SlotTime(branches[i], fast);
    if branches != [] {
      var i :| 0 <= i < |branches| && SlotTime(branches[i], fast) == LongestTime(branches, 0, fast);
      assert times[i] in times;
    }
  }
}
