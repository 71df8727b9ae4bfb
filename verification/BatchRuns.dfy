/** Properties of offline and batch runs: which slot holds what, how a batch
    relates to single runs, and which accessor views survive which calls. */
module BatchRuns {
  import opened Dispatch
  import opened StreamRuns

  // ----- The slots of a batch -----

  /** What one utterance contributes, judged by its input and its run alone. */
  function Alone(pcm: Pcm, out: RunOutcome): ResultSet {
    if Malformed(pcm) then ResultSet(EMPTY_SLOT, InvalidArg) else Captured(out.slot, ExitStatus(out.exit))
  }

  /** Which is: InvalidArg and nothing for audio that is none; else the status of its run,
      with the result if it has one or is OK, and with nothing otherwise. */
  lemma AloneIs(pcm: Pcm, out: RunOutcome)
    ensures pcm.NullPcm? || pcm.count <= 0 ==> Alone(pcm, out) == ResultSet(EMPTY_SLOT, InvalidArg)
    ensures pcm.Samples? && pcm.count > 0 && out.exit.Returned? ==>
              Alone(pcm, out).status == out.exit.status &&
              Alone(pcm, out).slot == if out.slot.hasResult || out.exit.status == OK then out.slot else EMPTY_SLOT
  {
  }

  predicate Throws(pcm: Pcm, out: RunOutcome) {
    !Malformed(pcm) && !out.exit.Returned?
  }

  /** The number of utterances that ran before the first reason to stop. */
  function Executed(pcms: seq<Pcm>, env: BatchEnv, i: nat): (k: nat)
    requires i <= |pcms|
    ensures i <= k <= |pcms|
    decreases |pcms| - i
  {
    if i == |pcms| || env.poll(i) then i
    else if Alone(pcms[i], env.run(i)).status == Aborted then i + 1
    else if i + 1 < |pcms| && env.progress(i + 1) then i + 1
    else Executed(pcms, env, i + 1)
  }

  /** Utterance j gave the loop a reason to stop right after it. */
  predicate StopsAfter(pcms: seq<Pcm>, env: BatchEnv, j: nat)
    requires j < |pcms|
  {
    Alone(pcms[j], env.run(j)).status == Aborted || (j + 1 < |pcms| && env.progress(j + 1))
  }

  lemma {:induction false} NoEarlierStop(pcms: seq<Pcm>, env: BatchEnv, i: nat, j: nat)
    requires i <= |pcms| && i <= j < Executed(pcms, env, i)
    ensures !env.poll(j) && (j + 1 < Executed(pcms, env, i) ==> !StopsAfter(pcms, env, j))
    decreases j - i
  {
    if i < j {
      NoEarlierStop(pcms, env, i + 1, j);
    }
  }

  lemma {:induction false} StopsThere(pcms: seq<Pcm>, env: BatchEnv, i: nat)
    requires i <= |pcms| && Executed(pcms, env, i) < |pcms|
    ensures var k := Executed(pcms, env, i); env.poll(k) || (i < k && StopsAfter(pcms, env, k - 1))
    decreases |pcms| - i
  {
    if !env.poll(i) && !StopsAfter(pcms, env, i) {
      StopsThere(pcms, env, i + 1);
    }
  }

  /** Executed is the first stop and nothing else: no earlier utterance had a
      reason to stop, and unless all ran there is one at the boundary. */
  lemma ExecutedIsFirstStop(pcms: seq<Pcm>, env: BatchEnv)
    ensures var k := Executed(pcms, env, 0);
            (forall j: nat :: j < k ==> !env.poll(j)) &&
            (forall j: nat :: j < k - 1 ==> !StopsAfter(pcms, env, j)) &&
            (k < |pcms| ==> env.poll(k) || (0 < k && StopsAfter(pcms, env, k - 1)))
  {
    var k := Executed(pcms, env, 0);
    forall j: nat | j < k ensures !env.poll(j) && (j < k - 1 ==> !StopsAfter(pcms, env, j)) {
      NoEarlierStop(pcms, env, 0, j);
    }
    if k < |pcms| {
      StopsThere(pcms, env, 0);
    }
  }

  function Slots(pcms: seq<Pcm>, env: BatchEnv, k: nat): (r: seq<ResultSet>)
    requires k <= |pcms|
    ensures |r| == k && forall i :: 0 <= i < k ==> r[i] == Alone(pcms[i], env.run(i))
  {
    seq(k, i requires 0 <= i < k => Alone(pcms[i], env.run(i)))
  }

  predicate LastAborted(pcms: seq<Pcm>, env: BatchEnv, k: nat)
    requires k <= |pcms|
  {
    k > 0 && Alone(pcms[k - 1], env.run(k - 1)).status == Aborted
  }

  ghost predicate NoThrow(pcms: seq<Pcm>, env: BatchEnv) {
    forall i :: 0 <= i < |pcms| ==> !Throws(pcms[i], env.run(i))
  }

  predicate ReadyToRun(s: State, a: RunArgs) {
    RunRejection(s, a) == OK && CanRun(s.model)
  }

  lemma SerialOneIsAlone(s: State, pcm: Pcm, a: RunArgs, out: RunOutcome)
    requires ReadyToRun(s, a) && !Throws(pcm, out)
    ensures var r := SerialOne(s, pcm, a, out);
            !r.threw && ReadyToRun(r.state, a) && r.state.batch == s.batch &&
            Captured(r.state.slot, r.status) == Alone(pcm, out) && r.status == Alone(pcm, out).status
  {
  }

  lemma {:induction false} SerialFillsSlots(s: State, i: nat, pcms: seq<Pcm>, a: RunArgs, env: BatchEnv,
                                            truncated: bool)
    requires i <= |pcms| && ReadyToRun(s, a) && NoThrow(pcms, env)
    requires s.batch == Slots(pcms, env, i)
    ensures var r := SerialFrom(s, i, pcms, a, env, truncated);
            var k := Executed(pcms, env, i);
            !r.threw && r.state.batch == Slots(pcms, env, k) &&
            r.status == if k < |pcms| || (k > i && LastAborted(pcms, env, k)) then Aborted else OK
    decreases |pcms| - i
  {
    if i < |pcms| && !env.poll(i) {
      SerialOneIsAlone(s, pcms[i], a, env.run(i));
      var r := SerialOne(s, pcms[i], a, env.run(i));
      var any := truncated || Truncating(r.status);
      var kept := r.state.(batch := r.state.batch + [Captured(r.state.slot, r.status)]);
      assert kept.batch == Slots(pcms, env, i + 1);
      if r.status != Aborted && !(i + 1 < |pcms| && env.progress(i + 1)) {
        SerialFillsSlots(kept, i + 1, pcms, a, env, any);
      }
    }
  }

  /** An accepted batch of a family without a grouped path, for every pattern of
      malformed utterances, aborts and cancellations: n slots, of which the first
      k are what each utterance gives on its own and the rest are ABORTED; the
      call says ABORTED exactly when something stopped it; and the single-result
      slot mirrors utterance 0. */
  lemma SerialBatchSlots(s: State, pcms: seq<Pcm>, a: BatchArgs, env: BatchEnv)
    requires BatchRejection(s, pcms, a) == OK && !s.model.batches && NoThrow(pcms, env)
    ensures var r := RunBatch(s, pcms, a, env);
            var n := |pcms|;
            var k := if env.progress(0) then 0 else Executed(pcms, env, 0);
            !r.threw && |r.state.batch| == n == BatchCount(r.state) &&
            (forall i :: 0 <= i < n ==>
               r.state.batch[i] == if i < k then Alone(pcms[i], env.run(i)) else ABORTED_SLOT) &&
            r.state.slot == r.state.batch[0].slot &&
            r.status == if k < n || LastAborted(pcms, env, k) || env.progress(n) then Aborted else OK
  {
    var cleared := ClearForRun(s).(batch := []);
    SerialFillsSlots(cleared, 0, pcms, a.run, env, false);
  }

  // ----- The flags of a batch -----

  predicate CutShort(st: Status) {
    st == OutputTruncated || st == OutputRepetition
  }

  /** One of the first k utterances was cut short. */
  predicate AnyCutShort(pcms: seq<Pcm>, env: BatchEnv, k: nat)
    requires k <= |pcms|
  {
    exists i :: 0 <= i < k && CutShort(Alone(pcms[i], env.run(i)).status)
  }

  /** The aborted flag that the last utterance left which ran at all. */
  predicate LeftAborted(pcms: seq<Pcm>, env: BatchEnv, k: nat)
    requires k <= |pcms|
  {
    k > 0 && if Malformed(pcms[k - 1]) then LeftAborted(pcms, env, k - 1) else env.run(k - 1).flags.aborted
  }

  predicate LeftRepetition(pcms: seq<Pcm>, env: BatchEnv, k: nat)
    requires k <= |pcms|
  {
    k > 0 && !Malformed(pcms[k - 1]) && env.run(k - 1).flags.repetition
  }

  /** The flags are those of k executed utterances. */
  ghost predicate FlagsAfter(flags: Flags, truncated: bool, pcms: seq<Pcm>, env: BatchEnv, k: nat)
    requires k <= |pcms|
  {
    flags.aborted == LeftAborted(pcms, env, k) && flags.repetition == LeftRepetition(pcms, env, k) &&
    truncated == AnyCutShort(pcms, env, k)
  }

  lemma SerialOneFlags(s: State, i: nat, pcms: seq<Pcm>, a: RunArgs, env: BatchEnv, truncated: bool)
    requires i < |pcms| && ReadyToRun(s, a) && NoThrow(pcms, env) && FlagsAfter(s.flags, truncated, pcms, env, i)
    ensures var r := SerialOne(s, pcms[i], a, env.run(i));
            FlagsAfter(r.state.flags, truncated || Truncating(r.status), pcms, env, i + 1)
  {
    OneMoreCutShort(pcms, env, i);
  }

  /** The flags that a serial loop leaves after k utterances. */
  ghost predicate SettledFlags(flags: Flags, pcms: seq<Pcm>, env: BatchEnv, k: nat)
    requires k <= |pcms|
  {
    flags.truncated == AnyCutShort(pcms, env, k) && flags.repetition == LeftRepetition(pcms, env, k) &&
    flags.aborted == (LeftAborted(pcms, env, k) || (k < |pcms| && !LastAborted(pcms, env, k)))
  }

  // Utterance i ends the loop.
  lemma SerialEndsFlags(s: State, i: nat, pcms: seq<Pcm>, a: RunArgs, env: BatchEnv, truncated: bool)
    requires i < |pcms| && ReadyToRun(s, a) && NoThrow(pcms, env) && !env.poll(i)
    requires FlagsAfter(s.flags, truncated, pcms, env, i)
    requires Alone(pcms[i], env.run(i)).status == Aborted || (i + 1 < |pcms| && env.progress(i + 1))
    ensures Executed(pcms, env, i) == i + 1
    ensures SettledFlags(SerialFrom(s, i, pcms, a, env, truncated).state.flags, pcms, env, i + 1)
  {
    SerialOneIsAlone(s, pcms[i], a, env.run(i));
    SerialOneFlags(s, i, pcms, a, env, truncated);
  }

  lemma {:induction false} SerialLeavesFlags(s: State, i: nat, pcms: seq<Pcm>, a: RunArgs, env: BatchEnv,
                                             truncated: bool)
    requires i <= |pcms| && ReadyToRun(s, a) && NoThrow(pcms, env) && !LastAborted(pcms, env, i)
    requires FlagsAfter(s.flags, truncated, pcms, env, i)
    ensures SettledFlags(SerialFrom(s, i, pcms, a, env, truncated).state.flags, pcms, env, Executed(pcms, env, i))
    decreases |pcms| - i
  {
    if i < |pcms| && !env.poll(i) {
      if Alone(pcms[i], env.run(i)).status == Aborted || (i + 1 < |pcms| && env.progress(i + 1)) {
        SerialEndsFlags(s, i, pcms, a, env, truncated);
      } else {
        SerialOneIsAlone(s, pcms[i], a, env.run(i));
        SerialOneFlags(s, i, pcms, a, env, truncated);
        var r := SerialOne(s, pcms[i], a, env.run(i));
        var kept := r.state.(batch := r.state.batch + [Captured(r.state.slot, r.status)]);
        SerialLeavesFlags(kept, i + 1, pcms, a, env, truncated || Truncating(r.status));
      }
    }
  }

  lemma OneMoreCutShort(pcms: seq<Pcm>, env: BatchEnv, i: nat)
    requires i < |pcms|
    ensures AnyCutShort(pcms, env, i + 1) <==>
            AnyCutShort(pcms, env, i) || CutShort(Alone(pcms[i], env.run(i)).status)
  {
  }

  /** The flags of an accepted serial batch: truncated exactly when one of the k executed
      utterances was; aborted when something other than an aborting utterance stopped the
      batch, or the last utterance that ran left the flag up. */
  lemma SerialBatchFlags(s: State, pcms: seq<Pcm>, a: BatchArgs, env: BatchEnv)
    requires BatchRejection(s, pcms, a) == OK && !s.model.batches && NoThrow(pcms, env)
    ensures var flags, n := RunBatch(s, pcms, a, env).state.flags, |pcms|;
            var k := if env.progress(0) then 0 else Executed(pcms, env, 0);
            flags.truncated == AnyCutShort(pcms, env, k) && flags.repetition == LeftRepetition(pcms, env, k) &&
            flags.aborted == (LeftAborted(pcms, env, k) ||
                              (!LastAborted(pcms, env, k) && (k < n || env.progress(n))))
  {
    var cleared := ClearForRun(s).(batch := []);
    SerialLeavesFlags(cleared, 0, pcms, a.run, env, false);
    SerialFillsSlots(cleared, 0, pcms, a.run, env, false);
  }

  /** A slot shows what transcribe_run shows for the same audio on any session
      that accepts it, with the same status; only a malformed utterance differs
      (see MalformedAlone). */
  lemma SlotEqualsSingleRun(s: State, pcm: Pcm, a: RunArgs, out: RunOutcome)
    requires ReadyToRun(s, a) && !Malformed(pcm) && pcm.finite && !Throws(pcm, out)
    ensures var r := Run(s, pcm, a, out, false);
            Alone(pcm, out).status == r.status &&
            View(Alone(pcm, out).slot) == View(r.state.slot) == BatchView(r.state, 0)
  {
  }

  // ----- Grouped dispatch against serial dispatch -----

  /** The two loops of a grouped path: over the slices of a shared encoder pass, or one
      utterance after the other when there is none. */
  datatype GroupedPath = Slices | OneByOne

  function GroupedDecode(path: GroupedPath, s: State, pcms: seq<Pcm>, env: BatchEnv): RunResult {
    match path
    case Slices => SlicesFrom(s, 0, |pcms|, env)
    case OneByOne => OneByOneFrom(s, 0, pcms, env)
  }

  /** Only well-formed inputs get a shared encoder pass, and nothing throws. */
  ghost predicate Groupable(path: GroupedPath, pcms: seq<Pcm>, env: BatchEnv) {
    NoThrow(pcms, env) && (path.Slices? ==> forall i :: 0 <= i < |pcms| ==> !Malformed(pcms[i]))
  }

  /** The number of utterances decoded before the first poll, or progress emission where
      there is one, that stops the loop. An utterance that aborts is not such a reason. */
  function Grouped(path: GroupedPath, n: nat, env: BatchEnv, i: nat): (g: nat)
    requires i <= n
    ensures i <= g <= n
    decreases n - i
  {
    if i == n || env.poll(i) then i
    else if path.Slices? && i + 1 < n && env.progress(i + 1) then i + 1
    else Grouped(path, n, env, i + 1)
  }

  lemma {:induction false} GroupedReachesFurther(path: GroupedPath, pcms: seq<Pcm>, env: BatchEnv, i: nat)
    requires i <= |pcms|
    ensures Executed(pcms, env, i) <= Grouped(path, |pcms|, env, i)
    decreases |pcms| - i
  {
    if i < |pcms| && !env.poll(i) {
      GroupedReachesFurther(path, pcms, env, i + 1);
    }
  }

  // A slot whose outcome is captured whether or not the utterance wrote it.
  function Uncaptured(pcm: Pcm, out: RunOutcome): ResultSet {
    if Malformed(pcm) then ResultSet(EMPTY_SLOT, InvalidArg) else ResultSet(out.slot, ExitStatus(out.exit))
  }

  function GroupedSlots(pcms: seq<Pcm>, env: BatchEnv, g: nat): (r: seq<ResultSet>)
    requires g <= |pcms|
    ensures |r| == g && forall i :: 0 <= i < g ==> r[i] == Uncaptured(pcms[i], env.run(i))
  {
    seq(g, i requires 0 <= i < g => Uncaptured(pcms[i], env.run(i)))
  }

  /** What a loop that decodes g of the utterances returns. */
  ghost predicate Collected(ran: RunResult, pcms: seq<Pcm>, env: BatchEnv, g: nat)
    requires g <= |pcms|
  {
    !ran.threw && ran.state.batch == GroupedSlots(pcms, env, g) && ran.status == if g < |pcms| then Aborted else OK
  }

  lemma {:induction false} SlicesFillSlots(s: State, i: nat, pcms: seq<Pcm>, env: BatchEnv)
    requires i <= |pcms| && Groupable(Slices, pcms, env)
    requires s.batch == GroupedSlots(pcms, env, i)
    ensures Collected(SlicesFrom(s, i, |pcms|, env), pcms, env, Grouped(Slices, |pcms|, env, i))
    decreases |pcms| - i
  {
    if i < |pcms| && !env.poll(i) {
      var out := env.run(i);
      var ran := ClearResult(s).(slot := out.slot, flags := out.flags);
      var kept := ran.(batch := ran.batch + [ResultSet(out.slot, out.exit.status)]);
      assert kept.batch == GroupedSlots(pcms, env, i + 1);
      if !(i + 1 < |pcms| && env.progress(i + 1)) {
        SlicesFillSlots(kept, i + 1, pcms, env);
      }
    }
  }

  lemma {:induction false} OneByOneFillsSlots(s: State, i: nat, pcms: seq<Pcm>, env: BatchEnv)
    requires i <= |pcms| && NoThrow(pcms, env)
    requires s.batch == GroupedSlots(pcms, env, i)
    ensures Collected(OneByOneFrom(s, i, pcms, env), pcms, env, Grouped(OneByOne, |pcms|, env, i))
    decreases |pcms| - i
  {
    if i < |pcms| && !env.poll(i) {
      var out := env.run(i);
      var ran := if Malformed(pcms[i]) then s else ClearResult(s).(slot := out.slot, flags := out.flags);
      var kept := ran.(batch := ran.batch + [Uncaptured(pcms[i], out)]);
      assert kept.batch == GroupedSlots(pcms, env, i + 1);
      OneByOneFillsSlots(kept, i + 1, pcms, env);
    }
  }

  lemma GroupedFillsSlots(path: GroupedPath, s: State, pcms: seq<Pcm>, env: BatchEnv)
    requires s.batch == [] && Groupable(path, pcms, env)
    ensures Collected(GroupedDecode(path, s, pcms, env), pcms, env, Grouped(path, |pcms|, env, 0))
  {
    match path
    case Slices => SlicesFillSlots(s, 0, pcms, env);
    case OneByOne => OneByOneFillsSlots(s, 0, pcms, env);
  }

  /** A result set as the accessors show it. */
  function Seen(r: ResultSet): ResultSet {
    ResultSet(View(r.slot), r.status)
  }

  predicate SameSlots(a: seq<ResultSet>, b: seq<ResultSet>) {
    |a| == |b| && forall i :: 0 <= i < |a| ==> Seen(a[i]) == Seen(b[i])
  }

  /** Every utterance from the k-th up to the g-th aborted without a result. */
  ghost predicate AllAborted(pcms: seq<Pcm>, env: BatchEnv, k: nat, g: nat)
    requires g <= |pcms|
  {
    forall i :: k <= i < g ==> Seen(Alone(pcms[i], env.run(i))) == ABORTED_SLOT
  }

  /** The loops before the padding: grouped and serial ones collect the same slots exactly
      when no utterance aborts, and no progress emission that only the serial loop makes
      cancels, before the last one that the grouped loop decodes. */
  lemma GroupedAgainstSerial(path: GroupedPath, s: State, pcms: seq<Pcm>, a: RunArgs, env: BatchEnv)
    requires ReadyToRun(s, a) && s.batch == [] && Groupable(path, pcms, env)
    ensures var serial := SerialFrom(s, 0, pcms, a, env, false);
            var grouped := GroupedDecode(path, s, pcms, env);
            var k, g := Executed(pcms, env, 0), Grouped(path, |pcms|, env, 0);
            k <= g && |serial.state.batch| == k && |grouped.state.batch| == g &&
            SameSlots(serial.state.batch, grouped.state.batch[..k]) &&
            (SameSlots(serial.state.batch, grouped.state.batch) <==> k == g) &&
            serial.status == (if k < |pcms| || LastAborted(pcms, env, k) then Aborted else OK) &&
            grouped.status == (if g < |pcms| then Aborted else OK)
  {
    GroupedReachesFurther(path, pcms, env, 0);
    SerialFillsSlots(s, 0, pcms, a, env, false);
    GroupedFillsSlots(path, s, pcms, env);
    var k := Executed(pcms, env, 0);
    assert |Slots(pcms, env, k)| == k;
  }

  lemma PaddedSlots(r: RunResult, cancel: bool, n: nat, settled: RunResult)
    requires !r.threw && |r.state.batch| <= n && n > 0 && (r.status == OK ==> |r.state.batch| == n)
    requires r.status == OK || r.status == Aborted
    requires settled == SettleBatch(Complete(r, cancel), n)
    ensures |settled.state.batch| == n && r.state.batch <= settled.state.batch
    ensures forall i :: |r.state.batch| <= i < n ==> settled.state.batch[i] == ABORTED_SLOT
    ensures settled.state.slot == settled.state.batch[0].slot
    ensures settled.status == if cancel then Aborted else r.status
  {
  }

  /** A settled batch of n slots: g utterances as they look alone, then ABORTED. */
  ghost predicate Settled(r: RunResult, pcms: seq<Pcm>, env: BatchEnv, g: nat, aborted: bool)
    requires g <= |pcms| && pcms != []
  {
    |r.state.batch| == |pcms| && r.state.slot == r.state.batch[0].slot &&
    (forall i :: 0 <= i < |pcms| ==>
       Seen(r.state.batch[i]) == if i < g then Seen(Alone(pcms[i], env.run(i))) else ABORTED_SLOT) &&
    r.status == if aborted then Aborted else OK
  }

  lemma SettledSerial(s: State, pcms: seq<Pcm>, a: RunArgs, env: BatchEnv, cancel: bool)
    requires ReadyToRun(s, a) && s.batch == [] && NoThrow(pcms, env) && pcms != []
    ensures var k := Executed(pcms, env, 0);
            Settled(SettleBatch(Complete(SerialFrom(s, 0, pcms, a, env, false), cancel), |pcms|),
                    pcms, env, k, cancel || k < |pcms| || LastAborted(pcms, env, k))
  {
    SerialFillsSlots(s, 0, pcms, a, env, false);
    var ran := SerialFrom(s, 0, pcms, a, env, false);
    PaddedSlots(ran, cancel, |pcms|, SettleBatch(Complete(ran, cancel), |pcms|));
  }

  lemma SettledGrouped(ran: RunResult, pcms: seq<Pcm>, env: BatchEnv, g: nat, cancel: bool)
    requires pcms != [] && g <= |pcms| && Collected(ran, pcms, env, g)
    ensures Settled(SettleBatch(Complete(ran, cancel), |pcms|), pcms, env, g, cancel || g < |pcms|)
  {
    PaddedSlots(ran, cancel, |pcms|, SettleBatch(Complete(ran, cancel), |pcms|));
  }

  /** What a caller can tell a grouped batch from a serial one by, when the serial loop
      stopped after k utterances and the grouped one after g. */
  ghost predicate Compare(serial: RunResult, grouped: RunResult, pcms: seq<Pcm>, env: BatchEnv, k: nat, g: nat,
                          cancel: bool)
    requires k <= g <= |pcms|
  {
    var n := |pcms|;
    |serial.state.batch| == |grouped.state.batch| == n &&
    (SameSlots(serial.state.batch, grouped.state.batch) <==> AllAborted(pcms, env, k, g)) &&
    View(serial.state.slot) == View(grouped.state.slot) &&
    (serial.status == grouped.status <==> cancel || g < n || (k == n && !LastAborted(pcms, env, n)))
  }

  lemma CompareSettled(serial: RunResult, grouped: RunResult, pcms: seq<Pcm>, env: BatchEnv, k: nat, g: nat,
                       cancel: bool)
    requires pcms != [] && k <= g <= |pcms| && (k == 0 ==> g == 0)
    requires Settled(serial, pcms, env, k, cancel || k < |pcms| || LastAborted(pcms, env, k))
    requires Settled(grouped, pcms, env, g, cancel || g < |pcms|)
    ensures Compare(serial, grouped, pcms, env, k, g, cancel)
  {
    assert Seen(serial.state.batch[0]) == Seen(grouped.state.batch[0]);
    if SameSlots(serial.state.batch, grouped.state.batch) {
      forall i | k <= i < g ensures Seen(Alone(pcms[i], env.run(i))) == ABORTED_SLOT {
        assert Seen(serial.state.batch[i]) == Seen(grouped.state.batch[i]);
      }
    }
  }

  /** The whole difference after the completion handshake and the padding. An
      utterance that aborts ends the serial loop but not the grouped ones, which go on
      to the first poll or progress emission of theirs that stops them. So the slots look
      the same exactly when all utterances decoded beyond the serial loop abort without a
      result; the statuses are the same unless the grouped loop gets through and the serial
      loop does not, or does with its last utterance aborted; the result slot always looks
      the same. */
  lemma GroupedBatchAgainstSerial(path: GroupedPath, s: State, pcms: seq<Pcm>, a: RunArgs, env: BatchEnv, cancel: bool)
    requires ReadyToRun(s, a) && s.batch == [] && Groupable(path, pcms, env) && pcms != []
    ensures var n := |pcms|;
            var serial := SettleBatch(Complete(SerialFrom(s, 0, pcms, a, env, false), cancel), n);
            var grouped := SettleBatch(Complete(GroupedDecode(path, s, pcms, env), cancel), n);
            var k, g := Executed(pcms, env, 0), Grouped(path, n, env, 0);
            k <= g && Compare(serial, grouped, pcms, env, k, g, cancel)
  {
    var k, g := Executed(pcms, env, 0), Grouped(path, |pcms|, env, 0);
    var decoded := GroupedDecode(path, s, pcms, env);
    GroupedReachesFurther(path, pcms, env, 0);
    GroupedFillsSlots(path, s, pcms, env);
    SettledSerial(s, pcms, a, env, cancel);
    SettledGrouped(decoded, pcms, env, g, cancel);
    CompareSettled(SettleBatch(Complete(SerialFrom(s, 0, pcms, a, env, false), cancel), |pcms|),
                   SettleBatch(Complete(decoded, cancel), |pcms|), pcms, env, k, g, cancel);
  }

  /** The flags of the last utterance that ran. */
  function LeftFlags(pcms: seq<Pcm>, env: BatchEnv, k: nat): Flags
    requires k <= |pcms|
  {
    if k == 0 then NO_FLAGS
    else if Malformed(pcms[k - 1]) then LeftFlags(pcms, env, k - 1)
    else env.run(k - 1).flags
  }

  lemma {:induction false} SlicesLeaveFlags(s: State, i: nat, pcms: seq<Pcm>, env: BatchEnv)
    requires i <= |pcms| && Groupable(Slices, pcms, env) && s.flags == LeftFlags(pcms, env, i)
    ensures var g := Grouped(Slices, |pcms|, env, i);
            var left := LeftFlags(pcms, env, g);
            SlicesFrom(s, i, |pcms|, env).state.flags == left.(aborted := left.aborted || g < |pcms|)
    decreases |pcms| - i
  {
    if i < |pcms| && !env.poll(i) {
      var out := env.run(i);
      var ran := ClearResult(s).(slot := out.slot, flags := out.flags);
      if !(i + 1 < |pcms| && env.progress(i + 1)) {
        SlicesLeaveFlags(ran.(batch := ran.batch + [ResultSet(out.slot, out.exit.status)]), i + 1, pcms, env);
      }
    }
  }

  lemma {:induction false} OneByOneLeavesFlags(s: State, i: nat, pcms: seq<Pcm>, env: BatchEnv)
    requires i <= |pcms| && NoThrow(pcms, env) && s.flags == LeftFlags(pcms, env, i)
    ensures var g := Grouped(OneByOne, |pcms|, env, i);
            var left := LeftFlags(pcms, env, g);
            OneByOneFrom(s, i, pcms, env).state.flags == left.(aborted := left.aborted || g < |pcms|)
    decreases |pcms| - i
  {
    if i < |pcms| && !env.poll(i) {
      var out := env.run(i);
      var ran := if Malformed(pcms[i]) then s else ClearResult(s).(slot := out.slot, flags := out.flags);
      OneByOneLeavesFlags(ran.(batch := ran.batch + [Uncaptured(pcms[i], out)]), i + 1, pcms, env);
    }
  }

  /** The flags after a grouped loop: those that the last decoded utterance left standing,
      and the aborted one when the loop was stopped. Unlike the serial loop it gathers no
      truncation itself. */
  lemma GroupedFlags(path: GroupedPath, s: State, pcms: seq<Pcm>, env: BatchEnv)
    requires s.flags == NO_FLAGS && Groupable(path, pcms, env)
    ensures var g := Grouped(path, |pcms|, env, 0);
            var left := LeftFlags(pcms, env, g);
            GroupedDecode(path, s, pcms, env).state.flags == left.(aborted := left.aborted || g < |pcms|)
  {
    match path
    case Slices => SlicesLeaveFlags(s, 0, pcms, env);
    case OneByOne => OneByOneLeavesFlags(s, 0, pcms, env);
  }

  // ----- The same on whole batch calls -----

  /** The family's hook is one of the two loops: it leaves behind what the loop does. */
  predicate HookRuns(hook: BatchHook, ran: RunResult) {
    !ran.threw && hook == BatchHook(Returned(ran.status), ran.state.batch, ran.state.slot, ran.state.flags)
  }

  // Nothing of an utterance or stream is left.
  predicate Cleared(s: State) {
    ClearResult(s) == s.(slot := EMPTY_SLOT)
  }

  /** Batch results, result slot and flags are all that may differ. */
  predicate SameButResults(s: State, t: State) {
    t == s.(batch := t.batch, slot := t.slot, flags := t.flags)
  }

  lemma {:induction false} SlicesLeaveRest(s: State, i: nat, n: nat, env: BatchEnv)
    requires i <= n && Cleared(s)
    ensures SameButResults(s, SlicesFrom(s, i, n, env).state)
    decreases n - i
  {
    if i < n && !env.poll(i) && env.run(i).exit.Returned? {
      var out := env.run(i);
      var kept := s.(slot := out.slot, flags := out.flags, batch := s.batch + [ResultSet(out.slot, out.exit.status)]);
      SlicesLeaveRest(kept, i + 1, n, env);
    }
  }

  lemma {:induction false} OneByOneLeavesRest(s: State, i: nat, pcms: seq<Pcm>, env: BatchEnv)
    requires i <= |pcms| && Cleared(s)
    ensures SameButResults(s, OneByOneFrom(s, i, pcms, env).state)
    decreases |pcms| - i
  {
    if i < |pcms| && !env.poll(i) {
      var out := env.run(i);
      if Malformed(pcms[i]) {
        OneByOneLeavesRest(s.(batch := s.batch + [ResultSet(EMPTY_SLOT, InvalidArg)]), i + 1, pcms, env);
      } else if out.exit.Returned? {
        var kept := s.(slot := out.slot, flags := out.flags, batch := s.batch + [ResultSet(out.slot, out.exit.status)]);
        OneByOneLeavesRest(kept, i + 1, pcms, env);
      }
    }
  }

  function ForBatch(s: State): State {
    ClearForRun(s).(batch := [])
  }

  lemma HookIsLoop(s: State, hook: BatchHook, ran: RunResult)
    requires s.batch == [] && SameButResults(s, ran.state) && HookRuns(hook, ran)
    ensures HookBatch(s, hook) == ran
  {
    assert s.batch + hook.results == hook.results;
  }

  lemma DecodeLeavesRest(path: GroupedPath, s: State, pcms: seq<Pcm>, env: BatchEnv)
    requires Cleared(s)
    ensures SameButResults(s, GroupedDecode(path, s, pcms, env).state)
  {
    match path
    case Slices => SlicesLeaveRest(s, 0, |pcms|, env);
    case OneByOne => OneByOneLeavesRest(s, 0, pcms, env);
  }

  /** A batch whose hook runs one of the loops is that loop, settled. */
  lemma GroupedBatchIsDecode(path: GroupedPath, s: State, pcms: seq<Pcm>, a: BatchArgs, env: BatchEnv)
    requires BatchRejection(s, pcms, a) == OK && s.model.batches && !env.progress(0)
    requires HookRuns(env.hook, GroupedDecode(path, ForBatch(s), pcms, env))
    ensures RunBatch(s, pcms, a, env) ==
            SettleBatch(Complete(GroupedDecode(path, ForBatch(s), pcms, env), env.progress(|pcms|)), |pcms|)
  {
    DecodeLeavesRest(path, ForBatch(s), pcms, env);
    HookIsLoop(ForBatch(s), env.hook, GroupedDecode(path, ForBatch(s), pcms, env));
  }

  /** Two models, one without a batch hook and one whose hook runs one of the loops:
      exactly when a caller of the public batch call can tell them apart. */
  lemma GroupedModelAgainstSerial(path: GroupedPath, s: State, t: State, pcms: seq<Pcm>, a: BatchArgs, env: BatchEnv)
    requires BatchRejection(s, pcms, a) == OK && !s.model.batches
    requires BatchRejection(t, pcms, a) == OK && t.model.batches
    requires Groupable(path, pcms, env) && HookRuns(env.hook, GroupedDecode(path, ForBatch(t), pcms, env))
    ensures var n := |pcms|;
            var serial, grouped := RunBatch(s, pcms, a, env), RunBatch(t, pcms, a, env);
            var k, g := if env.progress(0) then 0 else Executed(pcms, env, 0),
                        if env.progress(0) then 0 else Grouped(path, n, env, 0);
            k <= g && Compare(serial, grouped, pcms, env, k, g, env.progress(0) || env.progress(n))
  {
    if !env.progress(0) {
      var k, g := Executed(pcms, env, 0), Grouped(path, |pcms|, env, 0);
      GroupedReachesFurther(path, pcms, env, 0);
      GroupedFillsSlots(path, ForBatch(t), pcms, env);
      GroupedBatchIsDecode(path, t, pcms, a, env);
      SettledSerial(ForBatch(s), pcms, a.run, env, env.progress(|pcms|));
      SettledGrouped(GroupedDecode(path, ForBatch(t), pcms, env), pcms, env, g, env.progress(|pcms|));
      CompareSettled(RunBatch(s, pcms, a, env), RunBatch(t, pcms, a, env), pcms, env, k, g, env.progress(|pcms|));
    }
  }

  const ONE_SAMPLE := Samples(1, true)

  // Utterance 0 gives up with nothing, utterance 1 succeeds, nobody asks to stop again.
  function AbortsOnce(second: Snapshot): BatchEnv {
    BatchEnv(i => if i == 0 then RunOutcome(Returned(Aborted), EMPTY_SLOT, NO_FLAGS)
                  else RunOutcome(Returned(OK), second, NO_FLAGS),
             i => false, i => false, BatchHook(Returned(OK), [], EMPTY_SLOT, NO_FLAGS))
  }

  /** An abort callback that fires once, inside utterance 0: serial dispatch discards
      utterance 1 and reports ABORTED, grouped dispatch decodes it and reports OK. */
  lemma OneAbortSeparatesThem(s: State, a: RunArgs, second: Snapshot)
    requires ReadyToRun(s, a) && s.batch == []
    ensures var pcms, env := [ONE_SAMPLE, ONE_SAMPLE], AbortsOnce(second);
            var serial := SettleBatch(Complete(SerialFrom(s, 0, pcms, a, env, false), false), 2);
            var grouped := SettleBatch(Complete(SlicesFrom(s, 0, 2, env), false), 2);
            serial.state.batch == [ABORTED_SLOT, ABORTED_SLOT] && serial.status == Aborted &&
            grouped.state.batch == [ABORTED_SLOT, ResultSet(second, OK)] && grouped.status == OK
  {
  }

  // ----- A family's own batch hook -----

  /** The hook contract: n results on OK, at most n on abort. */
  predicate HookKeepsContract(hook: BatchHook, n: nat) {
    (hook.exit == Returned(OK) ==> |hook.results| == n) &&
    (hook.exit == Returned(Aborted) ==> |hook.results| <= n)
  }

  /** Any batch that returns OK or ABORTED has one slot per utterance and the
      result slot mirrors slot 0, whatever path ran it. */
  lemma BatchHasOneSlotEach(s: State, pcms: seq<Pcm>, a: BatchArgs, env: BatchEnv)
    requires BatchRejection(s, pcms, a) == OK
    requires s.model.batches ==> HookKeepsContract(env.hook, |pcms|)
    requires !s.model.batches ==> NoThrow(pcms, env)
    ensures var r := RunBatch(s, pcms, a, env);
            !r.threw && (r.status == OK || r.status == Aborted) ==>
              |r.state.batch| == |pcms| == BatchCount(r.state) && r.state.slot == r.state.batch[0].slot &&
              (forall i :: 0 <= i < |pcms| ==>
                 BatchStatus(r.state, i) == r.state.batch[i].status) &&
              (s.model.batches && !env.progress(0) ==> env.hook.results <= r.state.batch)
  {
    if s.model.batches {
      var cleared := ClearForRun(s).(batch := []);
      assert cleared.batch + env.hook.results == env.hook.results;
    } else {
      SerialBatchSlots(s, pcms, a, env);
    }
  }

  // ----- Which calls keep the batch accessors coherent -----

  /** While batch results are present, the single-result accessors alias
      utterance 0. */
  predicate Mirrored(s: State) {
    s.batch != [] ==> View(s.slot) == View(s.batch[0].slot)
  }

  lemma {:induction false} SerialGrowsBatch(s: State, i: nat, pcms: seq<Pcm>, a: RunArgs, env: BatchEnv,
                                            truncated: bool)
    requires i <= |pcms|
    ensures s.batch <= SerialFrom(s, i, pcms, a, env, truncated).state.batch
    decreases |pcms| - i
  {
    if i < |pcms| && !env.poll(i) {
      var r := SerialOne(s, pcms[i], a, env.run(i));
      var any := truncated || Truncating(r.status);
      var kept := r.state.(batch := r.state.batch + [Captured(r.state.slot, r.status)]);
      SerialGrowsBatch(kept, i + 1, pcms, a, env, any);
    }
  }

  /** Offline calls, accepted or not, keep the alias, provided nothing throws out
      of a batch. */
  lemma OfflineCallsKeepMirror(s: State, e: Event)
    requires Mirrored(s) && (e.RunCall? || e.BatchCall?)
    requires e.BatchCall? ==> !RunBatch(s, e.pcms, e.args, e.env).threw
    ensures Mirrored(Step(s, e))
  {
  }

  /** Begin and reset do not touch the batch results: after an accepted one the batch
      accessors still answer for the old batch. The alias survives exactly when there was
      no batch, or its first slot shows what is in the result slot now: nothing after a
      reset, and after a begin whatever its hook wrote. */
  lemma StaleBatchSurvivesReset(s: State, a: BeginArgs, hook: HookOutcome)
    ensures Begin(s, a, hook).state.batch == Reset(s).batch == s.batch
    ensures BatchCount(Reset(s)) == |s.batch|
    ensures forall i :: BatchStatus(Reset(s), i) == if 0 <= i < |s.batch| then s.batch[i].status else InvalidArg
    ensures Mirrored(Reset(s)) <==> s.batch == [] || !s.batch[0].slot.hasResult
    ensures BeginRejection(s, a) == OK ==>
              (Mirrored(Begin(s, a, hook).state) <==>
                 s.batch == [] || View(hook.writes.slot) == View(s.batch[0].slot))
  {
  }

  /** A single run rejected for its parameters keeps the result slot but has
      already dropped the batch results. The accessors answer as before exactly
      when there was no batch, or a batch of one completed utterance. */
  lemma RejectedRunDropsBatch(s: State, pcm: Pcm, a: RunArgs, out: RunOutcome, cancel: bool)
    requires Mirrored(s) && !Malformed(pcm) && pcm.finite && RunRejection(s, a) != OK
    ensures var r := Run(s, pcm, a, out, cancel);
            r.state == s.(batch := []) && r.status == RunRejection(s, a) &&
            (SameBatchAccess(s, r.state) <==>
               s.batch == [] || (|s.batch| == 1 && s.batch[0].slot.hasResult && s.batch[0].status == OK))
  {
    var t := Run(s, pcm, a, out, cancel).state;
    if SameBatchAccess(s, t) && s.batch != [] {
      assert BatchCount(s) == BatchCount(t);
      assert BatchStatus(s, 0) == BatchStatus(t, 0);
    }
    if |s.batch| == 1 && s.batch[0].slot.hasResult && s.batch[0].status == OK {
      assert View(s.slot).hasResult;
      assert View(s.slot) == s.slot;
    }
  }

  ghost predicate SameBatchAccess(s: State, t: State) {
    BatchCount(s) == BatchCount(t) &&
    forall i: int :: BatchStatus(s, i) == BatchStatus(t, i) && BatchView(s, i) == BatchView(t, i)
  }

  /** The one difference between a slot and a single run. A malformed single run leaves
      the session as it was; as a batch it replaces every old result by one INVALID_ARG
      slot, which the accessors fail to notice only if they showed just that before. */
  lemma MalformedAlone(s: State, pcm: Pcm, a: BatchArgs, out: RunOutcome, cancel: bool, env: BatchEnv)
    requires Malformed(pcm) && BatchRejection(s, [pcm], a) == OK && !s.model.batches
    requires !env.progress(0) && !env.poll(0)
    ensures Run(s, pcm, a.run, out, cancel) == RunResult(s, InvalidArg, false)
    ensures var r := RunBatch(s, [pcm], a, env);
            r.state.batch == [ResultSet(EMPTY_SLOT, InvalidArg)] && r.state.slot == EMPTY_SLOT &&
            r.status == (if env.progress(1) then Aborted else OK) &&
            (SameBatchAccess(s, r.state) <==>
               |s.batch| == 1 && Seen(s.batch[0]) == ResultSet(EMPTY_SLOT, InvalidArg))
  {
    SerialBatchSlots(s, [pcm], a, env);
    var t := RunBatch(s, [pcm], a, env).state;
    assert t.batch == [t.batch[0]];
    if SameBatchAccess(s, t) {
      assert BatchCount(s) == BatchCount(t) == 1;
      assert BatchStatus(s, 0) == BatchStatus(t, 0) && BatchView(s, 0) == BatchView(t, 0);
    }
  }

  /** Every other rejected offline call leaves the whole session as it was. */
  lemma RejectedOfflineCallIsAtomic(s: State, e: Event)
    requires (e.RunCall? || e.BatchCall?) && !Restarts(s, e)
    ensures StatusOf(s, e) != OK
    ensures Step(s, e) == s <==> e.BatchCall? || Malformed(e.pcm) || !e.pcm.finite || s.batch == []
  {
  }
}
