/** The session dispatcher as a transition system: what one public call does to
    the whole session state, for every behaviour of the family hook it calls. */
module Dispatch {
  import opened Options
  import opened Utf8
  import opened StreamText

  datatype Status =
    | OK | InvalidArg | NotImplemented | BadStructSize | OOM | Backend
    | Aborted | OutputTruncated | OutputRepetition | OtherError(code: int)

  datatype Lifecycle = Idle | Active | Finished | Failed

  datatype Policy = Auto | OnFinalize | StablePrefix

  /** Who decides the stable prefix; a constant of the loaded family. */
  datatype PrefixSource = GenericText | FamilyTokens | FamilyNative

  datatype Model = NoModel | Model(prefixSource: PrefixSource, streams: bool, runs: bool, batches: bool)

  /** The result slot every decode writes: token texts, the word and segment row
      counts, and the texts. */
  datatype Snapshot = Snapshot(tokens: seq<Text>, words: nat, segments: nat,
                               fullText: Text, rawText: Text, language: Text, hasResult: bool)

  const EMPTY_SLOT := Snapshot([], 0, 0, [], [], [], false)

  datatype ResultSet = ResultSet(slot: Snapshot, status: Status)

  /** Committed row counts: low-level hints beside the committed text. */
  datatype Rows = Rows(tokens: int, words: int, segments: int)

  const NO_ROWS := Rows(0, 0, 0)

  datatype Flags = Flags(aborted: bool, truncated: bool, repetition: bool)

  const NO_FLAGS := Flags(false, false, false)

  const EMPTY_COMMITTED := Committed([], 0)

  /** `committed` pairs the committed text with the raw offset of the tentative
      suffix. */
  datatype State = State(
    model: Model,
    slot: Snapshot, batch: seq<ResultSet>,
    lifecycle: Lifecycle, lastStatus: Status, revision: int, rows: Rows,
    policy: Policy, agreement: nat,
    committed: Committed, tentative: Text, history: seq<Text>, flags: Flags)

  function Initial(model: Model): State {
    State(model, EMPTY_SLOT, [], Idle, OK, 0, NO_ROWS, Auto, 0, EMPTY_COMMITTED, [], [], NO_FLAGS)
  }

  // Lifecycle, batch results and the three flags survive.
  function ClearResult(s: State): State {
    s.(slot := EMPTY_SLOT, lastStatus := OK, revision := 0, rows := NO_ROWS,
    policy := Auto, agreement := 0, committed := EMPTY_COMMITTED, tentative := [], history := [])
  }

  // ----- Hooks -----

  datatype Exit = Returned(status: Status) | ThrewBadAlloc | ThrewOther

  // The status the API guard reports, and the one the dispatcher records.
  function ExitStatus(e: Exit): Status {
    match e
    case Returned(st) => st
    case ThrewBadAlloc => OOM
    case ThrewOther => Backend
  }

  /** Everything a stream hook owns and may have rewritten when it exits. */
  datatype HookWrites = HookWrites(slot: Snapshot, revision: int, rows: Rows, flags: Flags)

  datatype UpdateWrites = UpdateWrites(resultChanged: bool, revision: int,
                                       inputReceivedMs: int, audioCommittedMs: int, bufferedMs: int)

  datatype HookOutcome = HookOutcome(exit: Exit, writes: HookWrites, update: UpdateWrites)

  function Absorb(s: State, w: HookWrites): State {
    s.(slot := w.slot, revision := w.revision, rows := w.rows, flags := w.flags)
  }

  // ----- The caller's update struct -----

  const MIN_UPDATE_SIZE: nat := 40
  const COMMITTED_CHANGED_END: nat := 41
  const TENTATIVE_CHANGED_END: nat := 42

  datatype Update = Update(structSize: nat, resultChanged: bool, isFinal: bool, revision: int,
                           inputReceivedMs: int, audioCommittedMs: int, bufferedMs: int,
                           committedChanged: bool, tentativeChanged: bool)

  predicate BadUpdate(u: Option<Update>) {
    u.Some? && u.value.structSize < MIN_UPDATE_SIZE
  }

  // Zeroed up to the size the caller declared; the size itself is kept.
  function Prepared(u: Option<Update>): Option<Update> {
    if u.None? then None
    else
      var v := u.value;
      Some(Update(v.structSize, false, false, 0, 0, 0, 0,
                  v.structSize < COMMITTED_CHANGED_END && v.committedChanged,
                  v.structSize < TENTATIVE_CHANGED_END && v.tentativeChanged))
  }

  function HookUpdate(u: Option<Update>, w: UpdateWrites): Option<Update> {
    if u.None? then None
    else Some(u.value.(resultChanged := w.resultChanged, revision := w.revision,
              inputReceivedMs := w.inputReceivedMs, audioCommittedMs := w.audioCommittedMs,
              bufferedMs := w.bufferedMs))
  }

  datatype Outcome = Outcome(state: State, status: Status, update: Option<Update>)

  // ----- The text policy on the session -----

  function FamilyCandidate(s: State): nat {
    if !s.slot.hasResult then 0
    else if s.rows.tokens > 0 then TokenPrefixBytes(s.slot.fullText, s.slot.tokens, s.rows.tokens)
    else if s.rows.words > 0 && s.rows.words >= s.slot.words then |s.slot.fullText|
    else if s.rows.segments > 0 && s.rows.segments >= s.slot.segments then |s.slot.fullText|
    else 0
  }

  predicate UsesGenericText(m: Model) {
    m.NoModel? || m.prefixSource.GenericText?
  }

  function SelectedCandidate(s: State): Candidate {
    if s.policy.OnFinalize? then Candidate(0, s.history)
    else if UsesGenericText(s.model) then GenericCandidate(s.history, s.slot.fullText, s.agreement)
    else Candidate(FamilyCandidate(s), s.history)
  }

  function ApplyFeedText(s: State): State {
    if !s.slot.hasResult then s.(tentative := [])
    else
      var cand := SelectedCandidate(s);
      var c := AppendCommitted(s.slot.fullText, s.committed, cand.bytes);
      s.(committed := c, history := cand.history, tentative := Tentative(s.slot.fullText, c.start))
  }

  function ApplyFinalizeText(s: State): State {
    if !s.slot.hasResult then s.(tentative := [])
    else
      s.(committed := FinalizeCommitted(s.slot.fullText, s.policy.OnFinalize?, s.committed), tentative := [])
  }

  // ON_FINALIZE hides the row boundary hints until the stream is finalized.
  function HideCounts(s: State): State {
    if s.policy.OnFinalize? then s.(rows := NO_ROWS) else s
  }

  predicate ObservableChange(before: State, after: State, reported: bool) {
    after.slot.hasResult != before.slot.hasResult || after.slot.fullText != before.slot.fullText ||
    after.committed.text != before.committed.text || after.tentative != before.tentative || reported
  }

  /** Advance the revision when something moved and the hook has not already. */
  function Bump(before: State, after: State, reported: bool): State {
    if ObservableChange(before, after, reported) && after.revision == before.revision
    then after.(revision := after.revision + 1)
    else after
  }

  function Published(before: State, after: State, u: Option<Update>): Option<Update> {
    if u.None? then None
    else
      var v := u.value;
      var moved := ObservableChange(before, after, v.resultChanged);
      var revision := Bump(before, after, v.resultChanged).revision;
      Some(v.(resultChanged := moved || revision != before.revision, revision := revision,
           committedChanged := if v.structSize >= COMMITTED_CHANGED_END
                               then after.committed.text != before.committed.text else v.committedChanged,
           tentativeChanged := if v.structSize >= TENTATIVE_CHANGED_END
                               then after.tentative != before.tentative else v.tentativeChanged))
  }

  function Reported(u: Option<Update>): bool {
    u.Some? && u.value.resultChanged
  }

  // ----- Stream calls -----

  datatype Pcm = NullPcm | Samples(count: int, finite: bool)

  predicate Malformed(pcm: Pcm) {
    pcm.NullPcm? || pcm.count <= 0
  }

  predicate CanStream(m: Model) {
    m.Model? && m.streams
  }

  /** Arguments of begin after the NULL defaults and the size gates. `preflight`
      is what the shared parameter checks and the family's validate hook say. */
  datatype BeginArgs = BeginArgs(runSizeOk: bool, streamSizeOk: bool, policyRaw: int, agreement: nat, preflight: Status)

  const MAX_AGREEMENT: nat := 32

  function PolicyOf(raw: int): Option<Policy> {
    if raw == 0 then Some(Auto) else if raw == 1 then Some(OnFinalize)
    else if raw == 2 then Some(StablePrefix) else None
  }

  // The status of the first check that fails before anything is cleared.
  function BeginRejection(s: State, a: BeginArgs): Status {
    if !a.runSizeOk || !a.streamSizeOk then BadStructSize
    else if PolicyOf(a.policyRaw).None? || a.agreement > MAX_AGREEMENT || s.lifecycle.Active? then InvalidArg
    else if !CanStream(s.model) then NotImplemented
    else a.preflight
  }

  function Begin(s: State, a: BeginArgs, hook: HookOutcome): Outcome {
    if BeginRejection(s, a) != OK then Outcome(s, BeginRejection(s, a), None)
    else
      var cleared := ClearResult(s).(flags := NO_FLAGS, lifecycle := Active,
                                     policy := PolicyOf(a.policyRaw).value, agreement := a.agreement);
      var ran := Absorb(cleared, hook.writes);
      var st := ExitStatus(hook.exit);
      Outcome(if st != OK then ran.(lifecycle := Failed, lastStatus := st) else ran, st, None)
  }

  function Feed(s: State, pcm: Pcm, hook: HookOutcome, u: Option<Update>): Outcome {
    if BadUpdate(u) then Outcome(s, BadStructSize, u)
    else if Malformed(pcm) || !s.lifecycle.Active? || !pcm.finite then Outcome(s, InvalidArg, Prepared(u))
    else if !CanStream(s.model) then Outcome(s, NotImplemented, Prepared(u))
    else
      var ran := Absorb(s, hook.writes);
      var seen := HookUpdate(Prepared(u), hook.update);
      var st := ExitStatus(hook.exit);
      if st != OK then Outcome(ran.(lifecycle := Failed, lastStatus := st), st, seen)
      else
        var after := HideCounts(ApplyFeedText(ran));
        var shown := Published(s, after, seen);
        Outcome(Bump(s, after, Reported(seen)), OK,
                if s.policy.OnFinalize? && shown.Some? then Some(shown.value.(audioCommittedMs := 0)) else shown)
  }

  // `is_final` marks the call site; only a throwing hook skips it.
  function MarkFinal(u: Option<Update>, exit: Exit): Option<Update> {
    if u.Some? && exit.Returned? then Some(u.value.(isFinal := true)) else u
  }

  function Finalize(s: State, hook: HookOutcome, u: Option<Update>): Outcome {
    if BadUpdate(u) then Outcome(s, BadStructSize, u)
    else if !s.lifecycle.Active? then Outcome(s, InvalidArg, Prepared(u))
    else if !CanStream(s.model) then Outcome(s, NotImplemented, Prepared(u))
    else
      var ran := Absorb(s, hook.writes);
      var seen := MarkFinal(HookUpdate(Prepared(u), hook.update), hook.exit);
      var st := ExitStatus(hook.exit);
      if st != OK then Outcome(ran.(lifecycle := Failed, lastStatus := st), st, seen)
      else
        var after := ApplyFinalizeText(ran);
        Outcome(Bump(s, after, Reported(seen)).(lifecycle := Finished), OK, Published(s, after, seen))
  }

  function Reset(s: State): State {
    ClearResult(s).(lifecycle := Idle, flags := s.flags.(aborted := false))
  }

  // ----- Offline runs -----

  datatype RunArgs = RunArgs(sizeOk: bool, preflight: Status)

  datatype RunOutcome = RunOutcome(exit: Exit, slot: Snapshot, flags: Flags)

  /** Result of an offline call; `threw` marks an exception on its way to the
      API guard. */
  datatype RunResult = RunResult(state: State, status: Status, threw: bool)

  function RunRejection(s: State, a: RunArgs): Status {
    if !a.sizeOk then BadStructSize
    else if s.lifecycle.Active? then InvalidArg
    else if s.model.Model? then a.preflight
    else OK
  }

  function ClearForRun(s: State): State {
    ClearResult(s).(flags := NO_FLAGS, lifecycle := Idle)
  }

  predicate CanRun(m: Model) {
    m.Model? && m.runs
  }

  function RunOne(s: State, pcm: Pcm, a: RunArgs, out: RunOutcome): RunResult {
    if Malformed(pcm) then RunResult(s, InvalidArg, false)
    else if RunRejection(s, a) != OK then RunResult(s, RunRejection(s, a), false)
    else if !CanRun(s.model) then RunResult(ClearForRun(s), NotImplemented, false)
    else RunResult(ClearForRun(s).(slot := out.slot, flags := out.flags),
                   ExitStatus(out.exit), !out.exit.Returned?)
  }

  function WithAborted(s: State): State {
    s.(flags := s.flags.(aborted := true))
  }

  function WithTruncated(s: State, truncated: bool): State {
    s.(flags := s.flags.(truncated := truncated))
  }

  // The final progress emission of a finished run doubles as a cancel probe.
  function Complete(r: RunResult, cancel: bool): RunResult {
    if !r.threw && r.status == OK && cancel
    then RunResult(WithAborted(r.state), Aborted, false) else r
  }

  function Run(s: State, pcm: Pcm, a: RunArgs, out: RunOutcome, cancel: bool): RunResult {
    if !Malformed(pcm) && !pcm.finite then RunResult(s, InvalidArg, false)
    else Complete(RunOne(if Malformed(pcm) then s else s.(batch := []), pcm, a, out), cancel)
  }

  // ----- Batches -----

  datatype BatchHook = BatchHook(exit: Exit, results: seq<ResultSet>, slot: Snapshot, flags: Flags)

  /** The environment of a batch: what each utterance's run does, whether the
      abort callback fires when polled before utterance i, whether the progress
      callback cancels after k completions, and the family's own batch hook. */
  datatype BatchEnv = BatchEnv(run: nat -> RunOutcome, poll: nat -> bool, progress: nat -> bool, hook: BatchHook)

  /** `arraysOk` is false for a NULL pcm or n_samples array. */
  datatype BatchArgs = BatchArgs(arraysOk: bool, hasPrefix: bool, run: RunArgs)

  const ABORTED_SLOT := ResultSet(EMPTY_SLOT, Aborted)

  function PadAborted(batch: seq<ResultSet>, n: nat): (r: seq<ResultSet>)
    ensures |r| == if |batch| < n then n else |batch|
    ensures batch <= r && forall i :: |batch| <= i < |r| ==> r[i] == ABORTED_SLOT
    decreases n - |batch|
  {
    if |batch| < n then PadAborted(batch + [ABORTED_SLOT], n) else batch
  }

  // Keep partials, never a stale snapshot.
  function Captured(slot: Snapshot, st: Status): ResultSet {
    ResultSet(if st == OK || slot.hasResult then slot else EMPTY_SLOT, st)
  }

  predicate Truncating(st: Status) {
    st == OutputTruncated || st == OutputRepetition
  }

  /** One utterance of the serial loop, before its slot is captured. */
  function SerialOne(s: State, pcm: Pcm, a: RunArgs, out: RunOutcome): RunResult {
    var cleared := ClearResult(s).(flags := Flags(s.flags.aborted, false, false));
    if Malformed(pcm) then RunResult(cleared, InvalidArg, false) else RunOne(cleared, pcm, a, out)
  }

  function SerialFrom(s: State, i: nat, pcms: seq<Pcm>, a: RunArgs, env: BatchEnv, truncated: bool): RunResult
    requires i <= |pcms|
    decreases |pcms| - i
  {
    if i == |pcms| then RunResult(WithTruncated(s, truncated), OK, false)
    else if env.poll(i) then RunResult(WithTruncated(WithAborted(s), truncated), Aborted, false)
    else
      var r := SerialOne(s, pcms[i], a, env.run(i));
      if r.threw then r
      else
        var any := truncated || Truncating(r.status);
        var kept := r.state.(batch := r.state.batch + [Captured(r.state.slot, r.status)]);
        if r.status == Aborted then RunResult(WithTruncated(kept, any), Aborted, false)
        else if i + 1 < |pcms| && env.progress(i + 1)
        then RunResult(WithTruncated(WithAborted(kept), any), Aborted, false)
        else SerialFrom(kept, i + 1, pcms, a, env, any)
  }

  /** The loop a family's grouped path runs over the slices of one shared encoder
      pass: no input check, every outcome captured, an aborted slice does not
      end the loop. */
  function SlicesFrom(s: State, i: nat, n: nat, env: BatchEnv): RunResult
    requires i <= n
    decreases n - i
  {
    if i == n then RunResult(s, OK, false)
    else if env.poll(i) then RunResult(WithAborted(s), Aborted, false)
    else
      var out := env.run(i);
      var ran := ClearResult(s).(slot := out.slot, flags := out.flags);
      if !out.exit.Returned? then RunResult(ran, ExitStatus(out.exit), true)
      else
        var kept := ran.(batch := ran.batch + [ResultSet(out.slot, out.exit.status)]);
        if i + 1 < n && env.progress(i + 1) then RunResult(WithAborted(kept), Aborted, false)
        else SlicesFrom(kept, i + 1, n, env)
  }

  /** The loop a family's grouped path falls back to when it cannot share one encoder
      pass: no progress emission, and neither a malformed nor an aborted utterance ends it. */
  function OneByOneFrom(s: State, i: nat, pcms: seq<Pcm>, env: BatchEnv): RunResult
    requires i <= |pcms|
    decreases |pcms| - i
  {
    if i == |pcms| then RunResult(s, OK, false)
    else if env.poll(i) then RunResult(WithAborted(s), Aborted, false)
    else if Malformed(pcms[i]) then
      OneByOneFrom(s.(batch := s.batch + [ResultSet(EMPTY_SLOT, InvalidArg)]), i + 1, pcms, env)
    else
      var out := env.run(i);
      var ran := ClearResult(s).(slot := out.slot, flags := out.flags);
      if !out.exit.Returned? then RunResult(ran, ExitStatus(out.exit), true)
      else OneByOneFrom(ran.(batch := ran.batch + [ResultSet(out.slot, out.exit.status)]), i + 1, pcms, env)
  }

  predicate AnyNonFinite(pcms: seq<Pcm>) {
    exists i :: 0 <= i < |pcms| && !Malformed(pcms[i]) && !pcms[i].finite
  }

  function BatchRejection(s: State, pcms: seq<Pcm>, a: BatchArgs): Status {
    if !a.arraysOk || pcms == [] || AnyNonFinite(pcms) then InvalidArg
    else if a.run.sizeOk && !s.lifecycle.Active? && a.hasPrefix then InvalidArg
    else if RunRejection(s, a.run) != OK then RunRejection(s, a.run)
    else if !CanRun(s.model) then NotImplemented
    else OK
  }

  function HookBatch(s: State, hook: BatchHook): RunResult {
    RunResult(s.(batch := s.batch + hook.results, slot := hook.slot, flags := hook.flags),
              ExitStatus(hook.exit), !hook.exit.Returned?)
  }

  /** Pad after an abort, then mirror utterance 0 in the result slot. */
  function SettleBatch(r: RunResult, n: nat): RunResult {
    if r.threw then r
    else
      var batch := if r.status == Aborted then PadAborted(r.state.batch, n) else r.state.batch;
      r.(state := r.state.(batch := batch, slot := if batch == [] then r.state.slot else batch[0].slot))
  }

  function RunBatch(s: State, pcms: seq<Pcm>, a: BatchArgs, env: BatchEnv): RunResult {
    if BatchRejection(s, pcms, a) != OK then RunResult(s, BatchRejection(s, pcms, a), false)
    else
      var n := |pcms|;
      var cleared := ClearForRun(s).(batch := []);
      if env.progress(0) then
        RunResult(WithAborted(cleared).(batch := PadAborted([], n)), Aborted, false)
      else
        var ran := if s.model.batches then HookBatch(cleared, env.hook)
                   else SerialFrom(cleared, 0, pcms, a.run, env, false);
        SettleBatch(Complete(ran, env.progress(n)), n)
  }

  // ----- Accessors -----

  function BatchCount(s: State): nat {
    if s.batch != [] then |s.batch| else if s.slot.hasResult then 1 else 0
  }

  function BatchStatus(s: State, i: int): Status {
    if i < 0 then InvalidArg
    else if s.batch != [] then (if i < |s.batch| then s.batch[i].status else InvalidArg)
    else if i == 0 && s.slot.hasResult then OK
    else InvalidArg
  }

  // The empty slot stands for the accessors' sentinels.
  function View(slot: Snapshot): Snapshot {
    if slot.hasResult then slot else EMPTY_SLOT
  }

  function BatchView(s: State, i: int): Snapshot {
    if i < 0 then EMPTY_SLOT
    else if s.batch != [] then (if i < |s.batch| then View(s.batch[i].slot) else EMPTY_SLOT)
    else if i == 0 then View(s.slot)
    else EMPTY_SLOT
  }

  datatype TextView = TextView(full: Text, committed: Text, tentative: Text, rawStart: nat)

  function GetText(s: State): TextView {
    if s.slot.hasResult
    then TextView(s.slot.fullText, s.committed.text, s.tentative, Min(s.committed.start, |s.slot.fullText|))
    else TextView([], [], [], 0)
  }
}
