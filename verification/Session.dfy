/** The mutable session object. Every method updates fields in place the way the
    dispatcher does and is tied to the transition of module Dispatch. */
module Sessions {
  import opened Options
  import opened Utf8
  import opened StreamText
  import opened Dispatch

  /** The caller-owned change record of a feed or finalize call. */
  class StreamUpdate {
    const structSize: nat
    var resultChanged: bool
    var isFinal: bool
    var revision: int
    var inputReceivedMs: int
    var audioCommittedMs: int
    var bufferedMs: int
    var committedChanged: bool
    var tentativeChanged: bool

    constructor (structSize: nat)
      ensures this.structSize == structSize
    {
      this.structSize := structSize;
    }

    function Value(): Update
      reads this
    {
      Update(structSize, resultChanged, isFinal, revision, inputReceivedMs, audioCommittedMs, bufferedMs,
             committedChanged, tentativeChanged)
    }

    method Prepare() returns (st: Status)
      modifies this
      ensures BadUpdate(Some(old(Value()))) ==> st == BadStructSize && Value() == old(Value())
      ensures !BadUpdate(Some(old(Value()))) ==> st == OK && Some(Value()) == Prepared(Some(old(Value())))
    {
      if structSize < MIN_UPDATE_SIZE {
        return BadStructSize;
      }
      resultChanged, isFinal, revision := false, false, 0;
      inputReceivedMs, audioCommittedMs, bufferedMs := 0, 0, 0;
      if structSize >= COMMITTED_CHANGED_END {
        committedChanged := false;
      }
      if structSize >= TENTATIVE_CHANGED_END {
        tentativeChanged := false;
      }
      st := OK;
    }

    method Publish(changed: bool, revision: int, committedMoved: bool, tentativeMoved: bool)
      modifies this
      ensures Value() == old(Value()).(
                resultChanged := old(resultChanged) || changed, revision := revision,
                committedChanged := if structSize >= COMMITTED_CHANGED_END
                                    then committedMoved else old(committedChanged),
                tentativeChanged := if structSize >= TENTATIVE_CHANGED_END
                                    then tentativeMoved else old(tentativeChanged))
    {
      resultChanged, this.revision := resultChanged || changed, revision;
      if structSize >= COMMITTED_CHANGED_END {
        committedChanged := committedMoved;
      }
      if structSize >= TENTATIVE_CHANGED_END {
        tentativeChanged := tentativeMoved;
      }
    }

    method Fill(w: UpdateWrites)
      modifies this
      ensures Some(Value()) == HookUpdate(Some(old(Value())), w)
    {
      resultChanged, revision := w.resultChanged, w.revision;
      inputReceivedMs, audioCommittedMs, bufferedMs := w.inputReceivedMs, w.audioCommittedMs, w.bufferedMs;
    }
  }

  function Seen(u: StreamUpdate?): Option<Update>
    reads u
  {
    if u == null then None else Some(u.Value())
  }

  class Session {
    const model: Model
    var slot: Snapshot
    var batch: seq<ResultSet>
    var lifecycle: Lifecycle
    var lastStatus: Status
    var revision: int
    var rows: Rows
    var policy: Policy
    var agreement: nat
    var committed: Committed
    var tentative: Text
    var history: seq<Text>
    var flags: Flags

    function Abstract(): State
      reads this
    {
      State(model, slot, batch, lifecycle, lastStatus, revision, rows, policy, agreement, committed, tentative,
            history, flags)
    }

    constructor (model: Model)
      ensures Abstract() == Initial(model)
    {
      this.model := model;
      slot, batch, lifecycle, lastStatus, revision, rows := EMPTY_SLOT, [], Idle, OK, 0, NO_ROWS;
      policy, agreement, committed, tentative, history := Auto, 0, EMPTY_COMMITTED, [], [];
      flags := NO_FLAGS;
    }

    method ClearResult()
      modifies this
      ensures Abstract() == Dispatch.ClearResult(old(Abstract()))
    {
      slot, lastStatus, revision, rows := EMPTY_SLOT, OK, 0, NO_ROWS;
      policy, agreement, committed, tentative, history := Auto, 0, EMPTY_COMMITTED, [], [];
    }

    // The family hook ran: it may have rewritten everything it owns.
    method TakeWrites(w: HookWrites)
      modifies this
      ensures Abstract() == Absorb(old(Abstract()), w)
    {
      slot, revision, rows, flags := w.slot, w.revision, w.rows, w.flags;
    }

    // ----- Text policy -----

    method GenericTextCandidate() returns (bytes: nat)
      modifies `history
      ensures Candidate(bytes, history) == GenericCandidate(old(history), slot.fullText, agreement)
    {
      var n := if agreement == 0 then DEFAULT_AGREEMENT else agreement;
      if n <= 1 {
        return |slot.fullText|;
      }
      ghost var all := history + [slot.fullText];
      history := history + [slot.fullText];
      while |history| > n
        invariant |history| <= |all| && history == all[|all| - |history|..]
        invariant |all| >= n ==> |history| >= n
        invariant |all| < n ==> history == all
      {
        history := history[1..];
      }
      assert history == LastN(all, n);
      if |history| < n {
        return 0;
      }
      var shared := ComputeSharedBytes(history[0], history);
      bytes := ComputeFloorBoundary(slot.fullText, shared);
    }

    method FamilyCandidateBytes() returns (bytes: nat)
      ensures bytes == FamilyCandidate(Abstract())
    {
      if !slot.hasResult {
        return 0;
      }
      if rows.tokens > 0 {
        bytes := ComputeTokenPrefixBytes(slot.fullText, slot.tokens, rows.tokens);
        return;
      }
      if rows.words > 0 && rows.words >= slot.words {
        return |slot.fullText|;
      }
      if rows.segments > 0 && rows.segments >= slot.segments {
        return |slot.fullText|;
      }
      bytes := 0;
    }

    method AppendCommittedRawPrefix(candidateBytes: nat)
      modifies `committed
      ensures committed == AppendCommitted(slot.fullText, old(committed), candidateBytes)
    {
      var raw := slot.fullText;
      var boundary := ComputeFloorBoundary(raw, Min(committed.start, |raw|));
      var candidate := ComputeFloorBoundary(raw, Min(candidateBytes, |raw|));
      if candidate <= boundary || boundary != |committed.text| || raw[..boundary] != committed.text {
        return;
      }
      committed := Committed(committed.text + raw[boundary..candidate], candidate);
    }

    method FinalizeCommittedText()
      modifies `committed
      ensures committed ==
              if slot.hasResult then FinalizeCommitted(slot.fullText, policy.OnFinalize?, old(committed))
              else old(committed)
    {
      if !slot.hasResult {
        return;
      }
      var text := committed.text;
      if policy.OnFinalize? || text == [] {
        text := slot.fullText;
      } else if text <= slot.fullText {
        text := text + slot.fullText[|text|..];
      }
      committed := Committed(text, |slot.fullText|);
    }

    method SelectCandidate() returns (bytes: nat)
      requires slot.hasResult
      modifies `history
      ensures Candidate(bytes, history) == SelectedCandidate(old(Abstract()))
    {
      if policy == OnFinalize {
        return 0;
      }
      if UsesGenericText(model) {
        bytes := GenericTextCandidate();
      } else {
        bytes := FamilyCandidateBytes();
      }
    }

    method ApplyFeedPolicy()
      modifies `committed, `tentative, `history
      ensures Abstract() == ApplyFeedText(old(Abstract()))
    {
      if !slot.hasResult {
        tentative := [];
        return;
      }
      var candidate := SelectCandidate();
      AppendCommittedRawPrefix(candidate);
      var boundary := ComputeFloorBoundary(slot.fullText, Min(committed.start, |slot.fullText|));
      tentative := slot.fullText[boundary..];
    }

    method ApplyTextPolicy(isFinalize: bool) returns (committedMoved: bool, tentativeMoved: bool)
      modifies `committed, `tentative, `history
      ensures Abstract() == if isFinalize then ApplyFinalizeText(old(Abstract())) else ApplyFeedText(old(Abstract()))
      ensures committedMoved <==> committed.text != old(committed.text)
      ensures tentativeMoved <==> tentative != old(tentative)
    {
      var prevCommitted, prevTentative := committed.text, tentative;
      if isFinalize {
        FinalizeCommittedText();
        tentative := [];
      } else {
        ApplyFeedPolicy();
      }
      committedMoved, tentativeMoved := committed.text != prevCommitted, tentative != prevTentative;
    }

    /** `before` is the state on entry to the call, before the hook ran. */
    method PublishDelta(before: State, committedMoved: bool, tentativeMoved: bool, update: StreamUpdate?)
      requires committedMoved <==> committed.text != before.committed.text
      requires tentativeMoved <==> tentative != before.tentative
      modifies `revision, update
      ensures Abstract() == Bump(before, old(Abstract()), Reported(old(Seen(update))))
      ensures Seen(update) == Published(before, old(Abstract()), old(Seen(update)))
    {
      var moved := slot.hasResult != before.slot.hasResult || slot.fullText != before.slot.fullText ||
                   committedMoved || tentativeMoved || (update != null && update.resultChanged);
      if moved && revision == before.revision {
        revision := revision + 1;
      }
      if update != null {
        update.Publish(moved || revision != before.revision, revision, committedMoved, tentativeMoved);
      }
    }

    // ----- Stream calls -----

    method Begin(a: BeginArgs, hook: HookOutcome) returns (st: Status)
      modifies this
      ensures Outcome(Abstract(), st, None) == Dispatch.Begin(old(Abstract()), a, hook)
    {
      if !a.runSizeOk || !a.streamSizeOk {
        return BadStructSize;
      }
      if PolicyOf(a.policyRaw).None? || a.agreement > MAX_AGREEMENT || lifecycle == Active {
        return InvalidArg;
      }
      if !CanStream(model) {
        return NotImplemented;
      }
      if a.preflight != OK {
        return a.preflight;
      }
      ClearResult();
      flags := NO_FLAGS;
      lifecycle, policy, agreement := Active, PolicyOf(a.policyRaw).value, a.agreement;
      TakeWrites(hook.writes);
      st := ExitStatus(hook.exit);
      if st != OK {
        lifecycle, lastStatus := Failed, st;
      }
    }

    method Feed(pcm: Pcm, hook: HookOutcome, update: StreamUpdate?) returns (st: Status)
      modifies this, update
      ensures Outcome(Abstract(), st, Seen(update)) ==
              Dispatch.Feed(old(Abstract()), pcm, hook, old(Seen(update)))
    {
      if update != null {
        st := update.Prepare();
        if st != OK {
          return;
        }
      }
      if Malformed(pcm) || lifecycle != Active || !pcm.finite {
        return InvalidArg;
      }
      if !CanStream(model) {
        return NotImplemented;
      }
      var before := Abstract();
      TakeWrites(hook.writes);
      if update != null {
        update.Fill(hook.update);
      }
      st := ExitStatus(hook.exit);
      if st != OK {
        lifecycle, lastStatus := Failed, st;
        return;
      }
      SettleFeed(before, update);
    }

    method HideRows()
      modifies `rows
      ensures Abstract() == HideCounts(old(Abstract()))
    {
      if policy == OnFinalize {
        rows := NO_ROWS;
      }
    }

    // The part of a feed that follows a successful hook.
    method SettleFeed(before: State, update: StreamUpdate?)
      requires committed == before.committed && tentative == before.tentative
      modifies this, update
      ensures var after := HideCounts(ApplyFeedText(old(Abstract())));
              var shown := Published(before, after, old(Seen(update)));
              Abstract() == Bump(before, after, Reported(old(Seen(update)))) &&
              Seen(update) == if policy.OnFinalize? && shown.Some?
                              then Some(shown.value.(audioCommittedMs := 0)) else shown
    {
      var committedMoved, tentativeMoved := ApplyTextPolicy(false);
      HideRows();
      PublishDelta(before, committedMoved, tentativeMoved, update);
      if update != null && policy == OnFinalize {
        update.audioCommittedMs := 0;
      }
    }

    method Finalize(hook: HookOutcome, update: StreamUpdate?) returns (st: Status)
      modifies this, update
      ensures Outcome(Abstract(), st, Seen(update)) ==
              Dispatch.Finalize(old(Abstract()), hook, old(Seen(update)))
    {
      if update != null {
        st := update.Prepare();
        if st != OK {
          return;
        }
      }
      if lifecycle != Active {
        return InvalidArg;
      }
      if !CanStream(model) {
        return NotImplemented;
      }
      var before := Abstract();
      TakeWrites(hook.writes);
      if update != null {
        update.Fill(hook.update);
        if hook.exit.Returned? {
          update.isFinal := true;
        }
      }
      st := ExitStatus(hook.exit);
      if st != OK {
        lifecycle, lastStatus := Failed, st;
        return;
      }
      var committedMoved, tentativeMoved := ApplyTextPolicy(true);
      PublishDelta(before, committedMoved, tentativeMoved, update);
      lifecycle := Finished;
    }

    method Reset()
      modifies this
      ensures Abstract() == Dispatch.Reset(old(Abstract()))
    {
      ClearResult();
      lifecycle, flags := Idle, flags.(aborted := false);
    }

    // ----- Offline runs -----

    method RunOneInner(pcm: Pcm, a: RunArgs, out: RunOutcome) returns (st: Status, threw: bool)
      modifies this
      ensures RunResult(Abstract(), st, threw) == RunOne(old(Abstract()), pcm, a, out)
    {
      threw := false;
      if Malformed(pcm) {
        return InvalidArg, false;
      }
      if !a.sizeOk {
        return BadStructSize, false;
      }
      if lifecycle == Active {
        return InvalidArg, false;
      }
      if model.Model? && a.preflight != OK {
        return a.preflight, false;
      }
      ClearResult();
      flags, lifecycle := NO_FLAGS, Idle;
      if !CanRun(model) {
        return NotImplemented, false;
      }
      slot, flags := out.slot, out.flags;
      return ExitStatus(out.exit), !out.exit.Returned?;
    }

    method CompleteWithProgress(st: Status, threw: bool, cancel: bool) returns (st': Status)
      modifies `flags
      ensures RunResult(Abstract(), st', threw) == Complete(RunResult(old(Abstract()), st, threw), cancel)
    {
      if threw || st != OK || !cancel {
        return st;
      }
      flags := flags.(aborted := true);
      st' := Aborted;
    }

    method Run(pcm: Pcm, a: RunArgs, out: RunOutcome, cancel: bool) returns (st: Status, threw: bool)
      modifies this
      ensures RunResult(Abstract(), st, threw) == Dispatch.Run(old(Abstract()), pcm, a, out, cancel)
    {
      if !Malformed(pcm) && !pcm.finite {
        return InvalidArg, false;
      }
      if !Malformed(pcm) {
        batch := [];
      }
      st, threw := RunOneInner(pcm, a, out);
      st := CompleteWithProgress(st, threw, cancel);
    }

    // ----- Batches -----

    method PadBatchResultsAborted(n: nat)
      modifies `batch
      ensures batch == PadAborted(old(batch), n)
    {
      while |batch| < n
        invariant PadAborted(batch, n) == PadAborted(old(batch), n)
        decreases n - |batch|
      {
        batch := batch + [ABORTED_SLOT];
      }
    }

    method CaptureResult(st: Status)
      modifies `batch
      ensures batch == old(batch) + [Captured(slot, st)]
    {
      if st == OK || slot.hasResult {
        batch := batch + [ResultSet(slot, st)];
      } else {
        batch := batch + [ResultSet(EMPTY_SLOT, st)];
      }
    }

    method RunUtterance(pcm: Pcm, a: RunArgs, out: RunOutcome) returns (st: Status, threw: bool)
      modifies this
      ensures RunResult(Abstract(), st, threw) == SerialOne(old(Abstract()), pcm, a, out)
    {
      ClearResult();
      flags := Flags(flags.aborted, false, false);
      if Malformed(pcm) {
        return InvalidArg, false;
      }
      st, threw := RunOneInner(pcm, a, out);
    }

    /** Utterance i of the serial loop, and whether it ends the loop. */
    method RunSlot(i: nat, pcms: seq<Pcm>, a: RunArgs, env: BatchEnv, truncated: bool)
      returns (stop: bool, st: Status, threw: bool, anyTruncated: bool)
      requires i < |pcms|
      modifies this
      ensures stop ==> RunResult(Abstract(), st, threw) == SerialFrom(old(Abstract()), i, pcms, a, env, truncated)
      ensures !stop ==> SerialFrom(Abstract(), i + 1, pcms, a, env, anyTruncated) ==
                        SerialFrom(old(Abstract()), i, pcms, a, env, truncated)
    {
      anyTruncated := truncated;
      if env.poll(i) {
        flags := flags.(aborted := true, truncated := truncated);
        return true, Aborted, false, truncated;
      }
      st, threw := RunUtterance(pcms[i], a, env.run(i));
      if threw {
        return true, st, threw, truncated;
      }
      anyTruncated := truncated || st == OutputTruncated || st == OutputRepetition;
      CaptureResult(st);
      if st == Aborted {
        flags := flags.(truncated := anyTruncated);
        return true, st, threw, anyTruncated;
      }
      stop := i + 1 < |pcms| && env.progress(i + 1);
      if stop {
        flags := flags.(aborted := true, truncated := anyTruncated);
        st := Aborted;
      }
    }

    method RunBatchSerial(pcms: seq<Pcm>, a: RunArgs, env: BatchEnv) returns (st: Status, threw: bool)
      modifies this
      ensures RunResult(Abstract(), st, threw) == SerialFrom(old(Abstract()), 0, pcms, a, env, false)
    {
      var anyTruncated := false;
      for i := 0 to |pcms|
        invariant SerialFrom(Abstract(), i, pcms, a, env, anyTruncated) ==
                  SerialFrom(old(Abstract()), 0, pcms, a, env, false)
      {
        var stop;
        stop, st, threw, anyTruncated := RunSlot(i, pcms, a, env, anyTruncated);
        if stop {
          return;
        }
      }
      flags := flags.(truncated := anyTruncated);
      return OK, false;
    }

    method DecodeBatchSlices(n: nat, env: BatchEnv) returns (st: Status, threw: bool)
      modifies this
      ensures RunResult(Abstract(), st, threw) == SlicesFrom(old(Abstract()), 0, n, env)
    {
      for i := 0 to n
        invariant SlicesFrom(Abstract(), i, n, env) == SlicesFrom(old(Abstract()), 0, n, env)
      {
        if env.poll(i) {
          flags := flags.(aborted := true);
          return Aborted, false;
        }
        ClearResult();
        var out := env.run(i);
        slot, flags := out.slot, out.flags;
        if !out.exit.Returned? {
          return ExitStatus(out.exit), true;
        }
        batch := batch + [ResultSet(slot, out.exit.status)];
        if i + 1 < n && env.progress(i + 1) {
          flags := flags.(aborted := true);
          return Aborted, false;
        }
      }
      return OK, false;
    }

    method DecodeOneByOne(pcms: seq<Pcm>, env: BatchEnv) returns (st: Status, threw: bool)
      modifies this
      ensures RunResult(Abstract(), st, threw) == OneByOneFrom(old(Abstract()), 0, pcms, env)
    {
      for i := 0 to |pcms|
        invariant OneByOneFrom(Abstract(), i, pcms, env) == OneByOneFrom(old(Abstract()), 0, pcms, env)
      {
        if env.poll(i) {
          flags := flags.(aborted := true);
          return Aborted, false;
        }
        if Malformed(pcms[i]) {
          batch := batch + [ResultSet(EMPTY_SLOT, InvalidArg)];
        } else {
          ClearResult();
          var out := env.run(i);
          slot, flags := out.slot, out.flags;
          if !out.exit.Returned? {
            return ExitStatus(out.exit), true;
          }
          batch := batch + [ResultSet(slot, out.exit.status)];
        }
      }
      return OK, false;
    }

    method FindNonFinite(pcms: seq<Pcm>) returns (found: bool)
      ensures found <==> AnyNonFinite(pcms)
    {
      for i := 0 to |pcms|
        invariant !AnyNonFinite(pcms[..i])
      {
        if !Malformed(pcms[i]) && !pcms[i].finite {
          return true;
        }
        assert forall j :: 0 <= j < i ==> pcms[..i + 1][j] == pcms[..i][j];
      }
      assert pcms[..|pcms|] == pcms;
      found := false;
    }

    // After the decode: pad an aborted batch, mirror utterance 0.
    method SettleResults(st: Status, n: nat)
      modifies `batch, `slot
      ensures RunResult(Abstract(), st, false) == SettleBatch(RunResult(old(Abstract()), st, false), n)
    {
      if st == Aborted {
        PadBatchResultsAborted(n);
      }
      if batch != [] {
        slot := batch[0].slot;
      }
    }

    method DecodeBatch(pcms: seq<Pcm>, a: RunArgs, env: BatchEnv) returns (st: Status, threw: bool)
      modifies this
      ensures RunResult(Abstract(), st, threw) ==
              if (model.Model? && model.batches) then HookBatch(old(Abstract()), env.hook)
              else SerialFrom(old(Abstract()), 0, pcms, a, env, false)
    {
      if (model.Model? && model.batches) {
        batch, slot, flags := batch + env.hook.results, env.hook.slot, env.hook.flags;
        return ExitStatus(env.hook.exit), !env.hook.exit.Returned?;
      }
      st, threw := RunBatchSerial(pcms, a, env);
    }

    method RunBatch(pcms: seq<Pcm>, a: BatchArgs, env: BatchEnv) returns (st: Status, threw: bool)
      modifies this
      ensures RunResult(Abstract(), st, threw) == Dispatch.RunBatch(old(Abstract()), pcms, a, env)
    {
      if !a.arraysOk || pcms == [] {
        return InvalidArg, false;
      }
      var nonFinite := FindNonFinite(pcms);
      if nonFinite {
        return InvalidArg, false;
      }
      if !a.run.sizeOk {
        return BadStructSize, false;
      }
      if lifecycle == Active || a.hasPrefix {
        return InvalidArg, false;
      }
      if model.Model? && a.run.preflight != OK {
        return a.run.preflight, false;
      }
      if !CanRun(model) {
        return NotImplemented, false;
      }
      var n := |pcms|;
      ClearResult();
      flags, lifecycle, batch := NO_FLAGS, Idle, [];
      if env.progress(0) {
        flags := flags.(aborted := true);
        PadBatchResultsAborted(n);
        return Aborted, false;
      }
      st, threw := DecodeBatch(pcms, a.run, env);
      if threw {
        return;
      }
      st := CompleteWithProgress(st, threw, env.progress(n));
      SettleResults(st, n);
    }
  }
}
