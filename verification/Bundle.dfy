/** Composing a speech recognizer and a diarizer into one bundle file: the checks, the
    copied and added fields, the prefixed tensors, and how they are told apart again. */
module Bundle {
  import opened Options
  import opened Sequences
  import opened Metadata
  import opened TrailerAudit

  datatype Value = Text(text: string) | Flag(flag: bool) | Other(code: int)

  type Kv = seq<Field<Value>>

  datatype Tensor<T> = Tensor(name: string, data: T)

  datatype Gguf<T> = Gguf(fields: Kv, tensors: seq<Tensor<T>>)

  const PREFIX := "sortformer."
  const VIRTUAL := "GGUF."
  const DIARIZER_FIELDS := "stt.sortformer."
  const ARCHITECTURE := "general.architecture"
  const VARIANT := "stt.variant"
  const SPEAKER_KERNELS := "stt.parakeet.encoder.spk_kernel_layers"
  const DIARIZATION := "stt.capability.speaker_diarization"
  const ASR_SUBSAMPLING := "stt.parakeet.encoder.subsampling_factor"
  const DIARIZER_SUBSAMPLING := "stt.sortformer.encoder.subsampling_factor"
  const EMBEDDED := "stt.parakeet.diarizer.embedded"
  const EMBEDDED_VARIANT := "stt.parakeet.diarizer.variant"
  const TENSOR_PREFIX := "stt.parakeet.diarizer.tensor_prefix"
  const VALIDATED := "diar_streaming_sortformer_4spk-v2.1"

  const FRONTEND: seq<string> := [
    "stt.frontend.sample_rate", "stt.frontend.num_mels", "stt.frontend.n_fft", "stt.frontend.hop_length",
    "stt.frontend.win_length", "stt.frontend.window", "stt.frontend.normalize", "stt.frontend.pre_emphasis",
    "stt.frontend.dither"]

  const CAPABILITIES: seq<string> := [
    "stt.capability.translate", "stt.capability.lang_detect", "stt.capability.streaming", DIARIZATION]

  const BULK: seq<string> := [
    "tokenizer.ggml.tokens", "tokenizer.ggml.scores", "tokenizer.ggml.token_type", "tokenizer.ggml.merges",
    "tokenizer.chat_template"]

  // ----- The checks -----

  datatype Verdict =
    | Accepted
    | KeyError(key: string)
    | WrongAsr
    | WrongDiarizer
    | NoSpeakerKernels
    | NotValidated
    | SubsamplingMismatch
    | FrontendMismatch(key: string)

  predicate FrontendsAgree(asr: Kv, diar: Kv, keys: seq<string>) {
    forall i :: 0 <= i < |keys| ==> Lookup(asr, keys[i]) == Lookup(diar, keys[i])
  }

  /** What the k-th check demands; reading a field that is not there is a check too. */
  predicate Passes(asr: Kv, diar: Kv, k: nat) {
    match k
    case 0 => Has(asr, ARCHITECTURE) && Has(diar, ARCHITECTURE)
    case 1 => Lookup(asr, ARCHITECTURE) == Some(Text("parakeet"))
    case 2 => Lookup(diar, ARCHITECTURE) == Some(Text("sortformer"))
    case 3 => Has(asr, SPEAKER_KERNELS)
    case 4 => Lookup(diar, VARIANT) == Some(Text(VALIDATED))
    case 5 => Has(asr, ASR_SUBSAMPLING)
    case 6 => Has(diar, DIARIZER_SUBSAMPLING)
    case 7 => Lookup(asr, ASR_SUBSAMPLING) == Lookup(diar, DIARIZER_SUBSAMPLING)
    case _ => FrontendsAgree(asr, diar, FRONTEND)
  }

  predicate FirstToFail(asr: Kv, diar: Kv, k: nat) {
    !Passes(asr, diar, k) && forall j: nat :: j < k ==> Passes(asr, diar, j)
  }

  const LAST_CHECK: nat := 8

  predicate Composable(asr: Kv, diar: Kv) {
    forall k: nat :: k <= LAST_CHECK ==> Passes(asr, diar, k)
  }

  /** The check that a refusal blames. */
  function Blamed(v: Verdict): (k: nat)
    requires !v.Accepted?
    ensures k <= LAST_CHECK
  {
    match v
    case KeyError(key) => if key == ARCHITECTURE then 0 else if key == ASR_SUBSAMPLING then 5 else 6
    case WrongAsr => 1
    case WrongDiarizer => 2
    case NoSpeakerKernels => 3
    case NotValidated => 4
    case SubsamplingMismatch => 7
    case FrontendMismatch(_) => LAST_CHECK
  }

  method Check(asr: Kv, diar: Kv) returns (v: Verdict)
    ensures !v.Accepted? ==> FirstToFail(asr, diar, Blamed(v))
    ensures v.Accepted? <==> Composable(asr, diar)
    ensures v.KeyError? ==> v.key in {ARCHITECTURE, ASR_SUBSAMPLING, DIARIZER_SUBSAMPLING}
    ensures v.FrontendMismatch? ==>
              exists i :: 0 <= i < |FRONTEND| && v.key == FRONTEND[i] &&
                Lookup(asr, v.key) != Lookup(diar, v.key) && FrontendsAgree(asr, diar, FRONTEND[..i])
  {
    if Lookup(asr, ARCHITECTURE).None? || Lookup(diar, ARCHITECTURE).None? {
      return KeyError(ARCHITECTURE);
    }
    if Lookup(asr, ARCHITECTURE) != Some(Text("parakeet")) {
      return WrongAsr;
    }
    if Lookup(diar, ARCHITECTURE) != Some(Text("sortformer")) {
      return WrongDiarizer;
    }
    if !Has(asr, SPEAKER_KERNELS) {
      return NoSpeakerKernels;
    }
    if Lookup(diar, VARIANT) != Some(Text(VALIDATED)) {
      return NotValidated;
    }
    if Lookup(asr, ASR_SUBSAMPLING).None? {
      return KeyError(ASR_SUBSAMPLING);
    }
    if Lookup(diar, DIARIZER_SUBSAMPLING).None? {
      return KeyError(DIARIZER_SUBSAMPLING);
    }
    if Lookup(asr, ASR_SUBSAMPLING) != Lookup(diar, DIARIZER_SUBSAMPLING) {
      return SubsamplingMismatch;
    }
    for i := 0 to |FRONTEND|
      invariant FrontendsAgree(asr, diar, FRONTEND[..i])
    {
      if Lookup(asr, FRONTEND[i]) != Lookup(diar, FRONTEND[i]) {
        return FrontendMismatch(FRONTEND[i]);
      }
      assert forall j :: 0 <= j < i ==> FRONTEND[..i][j] == FRONTEND[j];
    }
    assert FRONTEND[..|FRONTEND|] == FRONTEND;
    v := Accepted;
  }

  /** The checks, written out. */
  lemma ComposableIff(asr: Kv, diar: Kv)
    ensures Composable(asr, diar) <==>
            && Lookup(asr, "general.architecture") == Some(Text("parakeet"))
            && Lookup(diar, "general.architecture") == Some(Text("sortformer"))
            && Has(asr, "stt.parakeet.encoder.spk_kernel_layers")
            && Lookup(diar, "stt.variant") == Some(Text("diar_streaming_sortformer_4spk-v2.1"))
            && Has(asr, "stt.parakeet.encoder.subsampling_factor")
            && Lookup(asr, "stt.parakeet.encoder.subsampling_factor") ==
               Lookup(diar, "stt.sortformer.encoder.subsampling_factor")
            && FrontendsAgree(asr, diar, FRONTEND)
  {
    if Composable(asr, diar) {
      assert Passes(asr, diar, 1) && Passes(asr, diar, 2) && Passes(asr, diar, 3) && Passes(asr, diar, 4);
      assert Passes(asr, diar, 5) && Passes(asr, diar, 7) && Passes(asr, diar, 8);
    }
  }

  // ----- The fields -----

  predicate StartsWith(name: string, prefix: string) {
    prefix <= name
  }

  predicate CopiedFromAsr(key: string) {
    !StartsWith(key, VIRTUAL) && key != ARCHITECTURE && key != DIARIZATION
  }

  function CopyAsr(kv: Kv, fields: Kv): Kv {
    if fields == [] then kv
    else
      var last := fields[|fields| - 1];
      var r := CopyAsr(kv, fields[..|fields| - 1]);
      if CopiedFromAsr(last.key) then Put(r, last.key, last.value) else r
  }

  function CopyDiarizer(kv: Kv, fields: Kv): Kv {
    if fields == [] then kv
    else
      var last := fields[|fields| - 1];
      var r := CopyDiarizer(kv, fields[..|fields| - 1]);
      if StartsWith(last.key, DIARIZER_FIELDS) then Put(r, last.key, last.value) else r
  }

  function Stated(kv: Kv): Kv {
    var k1 := Put(kv, DIARIZATION, Flag(true));
    var k2 := Put(k1, EMBEDDED, Flag(true));
    var k3 := Put(k2, EMBEDDED_VARIANT, Text(VALIDATED));
    Put(k3, TENSOR_PREFIX, Text(PREFIX))
  }

  // What the writer holds after construction.
  const FRESH: Kv := [Field(ARCHITECTURE, Text("parakeet"))]

  function Fields(asr: Kv, diar: Kv): Kv {
    CopyDiarizer(Stated(CopyAsr(FRESH, asr)), diar)
  }

  /** What reaches the file: the capability fill, then the bulk trailer. */
  function Written(kv: Kv): Kv {
    MoveBulkLast(DeclareMissing(kv, CAPABILITIES, Flag(false)), BULK)
  }

  // ----- The tensors -----

  function Renamed<T>(ts: seq<Tensor<T>>): (r: seq<Tensor<T>>)
    ensures |r| == |ts| && forall i :: 0 <= i < |r| ==> r[i] == Tensor(PREFIX + ts[i].name, ts[i].data)
  {
    seq(|ts|, i requires 0 <= i < |ts| => Tensor(PREFIX + ts[i].name, ts[i].data))
  }

  function Bundled<T>(asr: seq<Tensor<T>>, diar: seq<Tensor<T>>): seq<Tensor<T>> {
    asr + Renamed(diar)
  }

  method CopyAsrFields(fields: Kv) returns (kv: Kv)
    ensures kv == CopyAsr(FRESH, fields)
  {
    kv := FRESH;
    for i := 0 to |fields|
      invariant kv == CopyAsr(FRESH, fields[..i])
    {
      assert fields[..i + 1][..i] == fields[..i];
      if CopiedFromAsr(fields[i].key) {
        kv := Put(kv, fields[i].key, fields[i].value);
      }
    }
    assert fields[..|fields|] == fields;
  }

  method CopyDiarizerFields(stated: Kv, fields: Kv) returns (kv: Kv)
    ensures kv == CopyDiarizer(stated, fields)
  {
    kv := stated;
    for i := 0 to |fields|
      invariant kv == CopyDiarizer(stated, fields[..i])
    {
      assert fields[..i + 1][..i] == fields[..i];
      if StartsWith(fields[i].key, DIARIZER_FIELDS) {
        kv := Put(kv, fields[i].key, fields[i].value);
      }
    }
    assert fields[..|fields|] == fields;
  }

  method Compose<T>(asr: Gguf<T>, diar: Gguf<T>) returns (v: Verdict, out: Gguf<T>)
    ensures v.Accepted? <==> Composable(asr.fields, diar.fields)
    ensures v.Accepted? ==> out == Gguf(Written(Fields(asr.fields, diar.fields)), Bundled(asr.tensors, diar.tensors))
    ensures !v.Accepted? ==> out == Gguf([], [])
  {
    v := Check(asr.fields, diar.fields);
    if !v.Accepted? {
      return v, Gguf([], []);
    }
    var kv := CopyAsrFields(asr.fields);
    kv := CopyDiarizerFields(Stated(kv), diar.fields);
    var tensors := CopyTensors(asr.tensors, diar.tensors);
    kv := FillCapabilities(kv, CAPABILITIES, Flag(false));
    kv := MoveShard(kv, BULK);
    out := Gguf(kv, tensors);
  }

  method CopyTensors<T>(asr: seq<Tensor<T>>, diar: seq<Tensor<T>>) returns (ts: seq<Tensor<T>>)
    ensures ts == Bundled(asr, diar)
  {
    ts := [];
    for i := 0 to |asr|
      invariant ts == asr[..i]
    {
      ts := ts + [asr[i]];
    }
    for i := 0 to |diar|
      invariant ts == asr + Renamed(diar)[..i]
    {
      ts := ts + [Tensor(PREFIX + diar[i].name, diar[i].data)];
    }
  }

  // ----- The bundle says that it diarizes, once -----

  lemma {:induction false} CopyAsrIsDict(kv: Kv, fields: Kv)
    requires IsDict(kv)
    ensures IsDict(CopyAsr(kv, fields))
  {
    if fields != [] {
      var last := fields[|fields| - 1];
      CopyAsrIsDict(kv, fields[..|fields| - 1]);
      PutKeepsDict(CopyAsr(kv, fields[..|fields| - 1]), last.key, last.value);
    }
  }

  lemma {:induction false} CopyDiarizerKeeps(kv: Kv, fields: Kv, f: Field<Value>)
    requires IsDict(kv) && f in kv && !StartsWith(f.key, DIARIZER_FIELDS)
    ensures IsDict(CopyDiarizer(kv, fields)) && f in CopyDiarizer(kv, fields)
  {
    if fields != [] {
      var last := fields[|fields| - 1];
      CopyDiarizerKeeps(kv, fields[..|fields| - 1], f);
      PutKeepsDict(CopyDiarizer(kv, fields[..|fields| - 1]), last.key, last.value);
    }
  }

  lemma OwnKeysDiffer()
    ensures !StartsWith(DIARIZATION, DIARIZER_FIELDS)
    ensures DIARIZATION != EMBEDDED && DIARIZATION != EMBEDDED_VARIANT
    ensures DIARIZATION != TENSOR_PREFIX
  {
    assert DIARIZATION[4] == 'c';
  }

  lemma StatedDiarizes(kv: Kv)
    requires IsDict(kv)
    ensures IsDict(Stated(kv)) && Field(DIARIZATION, Flag(true)) in Stated(kv)
  {
    OwnKeysDiffer();
    var k1 := Put(kv, DIARIZATION, Flag(true));
    var k2 := Put(k1, EMBEDDED, Flag(true));
    var k3 := Put(k2, EMBEDDED_VARIANT, Text(VALIDATED));
    PutKeepsDict(kv, DIARIZATION, Flag(true));
    PutKeepsDict(k1, EMBEDDED, Flag(true));
    PutKeepsDict(k2, EMBEDDED_VARIANT, Text(VALIDATED));
    PutKeepsDict(k3, TENSOR_PREFIX, Text(PREFIX));
  }

  lemma BulkIsDistinct()
    ensures Distinct(BULK)
  {
    assert BULK[0][15] == 't' && BULK[1][15] == 's' && BULK[3][15] == 'm';
    assert |BULK[0]| == |BULK[1]| == |BULK[3]| == 21 && |BULK[2]| == 25 && |BULK[4]| == 23;
  }

  /** Whatever the two inputs say, the bundle's file has the diarization capability
      exactly once, and it is true. */
  lemma BundleDiarizesOnce(asr: Kv, diar: Kv)
    ensures var kv := Written(Fields(asr, diar)); IsDict(kv) && Field(DIARIZATION, Flag(true)) in kv
    ensures forall v: Value :: Field(DIARIZATION, v) in Written(Fields(asr, diar)) ==> v == Flag(true)
  {
    var fields := Fields(asr, diar);
    var f := Field(DIARIZATION, Flag(true));
    CopyAsrIsDict(FRESH, asr);
    StatedDiarizes(CopyAsr(FRESH, asr));
    OwnKeysDiffer();
    CopyDiarizerKeeps(Stated(CopyAsr(FRESH, asr)), diar, f);
    EveryCapabilityIsStated(fields, CAPABILITIES, Flag(false));
    BulkIsDistinct();
    MoveBulkKeepsFields(DeclareMissing(fields, CAPABILITIES, Flag(false)), BULK);
    OnlyOne(Written(fields), f);
  }

  lemma OnlyOne(kv: Kv, f: Field<Value>)
    requires IsDict(kv) && f in kv
    ensures forall v: Value :: Field(f.key, v) in kv ==> v == f.value
  {
    forall v: Value | Field(f.key, v) in kv ensures v == f.value {
      var i :| 0 <= i < |kv| && kv[i] == f;
      var j :| 0 <= j < |kv| && kv[j] == Field(f.key, v);
    }
  }

  // ----- Where every field of the bundle comes from -----

  lemma {:induction false} LookupAfterCopyAsr(kv: Kv, fields: Kv, key: string)
    requires IsDict(kv) && IsDict(fields)
    ensures IsDict(CopyAsr(kv, fields))
    ensures Lookup(CopyAsr(kv, fields), key) ==
            if CopiedFromAsr(key) && Has(fields, key) then Lookup(fields, key) else Lookup(kv, key)
  {
    if fields != [] {
      var front, last := fields[..|fields| - 1], fields[|fields| - 1];
      LookupAfterCopyAsr(kv, front, key);
      LookupAfterPut(CopyAsr(kv, front), last.key, last.value, key);
      LookupInFront(fields, key);
      HasInFront(fields, key);
    }
  }

  lemma {:induction false} LookupAfterCopyDiarizer(kv: Kv, fields: Kv, key: string)
    requires IsDict(kv) && IsDict(fields)
    ensures IsDict(CopyDiarizer(kv, fields))
    ensures Lookup(CopyDiarizer(kv, fields), key) ==
            if StartsWith(key, DIARIZER_FIELDS) && Has(fields, key) then Lookup(fields, key) else Lookup(kv, key)
  {
    if fields != [] {
      var front, last := fields[..|fields| - 1], fields[|fields| - 1];
      LookupAfterCopyDiarizer(kv, front, key);
      LookupAfterPut(CopyDiarizer(kv, front), last.key, last.value, key);
      LookupInFront(fields, key);
      HasInFront(fields, key);
    }
  }

  /** What the composer says itself. */
  function OwnField(key: string): Option<Value> {
    if key == DIARIZATION || key == EMBEDDED then Some(Flag(true))
    else if key == EMBEDDED_VARIANT then Some(Text(VALIDATED))
    else if key == TENSOR_PREFIX then Some(Text(PREFIX))
    else None
  }

  lemma LookupAfterStating(kv: Kv, key: string)
    requires IsDict(kv)
    ensures IsDict(Stated(kv))
    ensures Lookup(Stated(kv), key) == if OwnField(key).Some? then OwnField(key) else Lookup(kv, key)
  {
    OwnKeysDiffer();
    var k1 := Put(kv, DIARIZATION, Flag(true));
    var k2 := Put(k1, EMBEDDED, Flag(true));
    var k3 := Put(k2, EMBEDDED_VARIANT, Text(VALIDATED));
    LookupAfterPut(kv, DIARIZATION, Flag(true), key);
    LookupAfterPut(k1, EMBEDDED, Flag(true), key);
    LookupAfterPut(k2, EMBEDDED_VARIANT, Text(VALIDATED), key);
    LookupAfterPut(k3, TENSOR_PREFIX, Text(PREFIX), key);
  }

  /** Where the value of a key comes from, by rank: the diarizer's own section, what the
      composer states, the recognizer, the writer, and the capability fill. */
  function Origin(asr: Kv, diar: Kv, key: string): Option<Value> {
    if StartsWith(key, DIARIZER_FIELDS) && Has(diar, key) then Lookup(diar, key)
    else if OwnField(key).Some? then OwnField(key)
    else if CopiedFromAsr(key) && Has(asr, key) then Lookup(asr, key)
    else if key == ARCHITECTURE then Some(Text("parakeet"))
    else if key in CAPABILITIES then Some(Flag(false))
    else None
  }

  /** The same, written out. */
  lemma OriginInText(asr: Kv, diar: Kv, key: string)
    ensures Origin(asr, diar, key) ==
            if "stt.sortformer." <= key && Has(diar, key) then Lookup(diar, key)
            else if key == "stt.capability.speaker_diarization" || key == "stt.parakeet.diarizer.embedded"
            then Some(Flag(true))
            else if key == "stt.parakeet.diarizer.variant" then Some(Text("diar_streaming_sortformer_4spk-v2.1"))
            else if key == "stt.parakeet.diarizer.tensor_prefix" then Some(Text("sortformer."))
            else if key == "general.architecture" then Some(Text("parakeet"))
            else if !("GGUF." <= key) && Has(asr, key) then Lookup(asr, key)
            else if key == "stt.capability.translate" || key == "stt.capability.lang_detect" ||
                    key == "stt.capability.streaming"
            then Some(Flag(false))
            else None
  {
    OwnKeysDiffer();
    ArchitectureIsNotOwn();
  }

  lemma ArchitectureIsNotOwn()
    ensures !StartsWith(ARCHITECTURE, VIRTUAL) && OwnField(ARCHITECTURE) == None
  {
    assert ARCHITECTURE[0] == 'g' && VIRTUAL[0] == 'G';
    assert DIARIZATION[0] == 's' && EMBEDDED[0] == 's' && EMBEDDED_VARIANT[0] == 's' && TENSOR_PREFIX[0] == 's';
  }

  /** The whole key/value section of a bundle, key by key: each key once, with the value of
      its origin, and no other key. */
  lemma EveryFieldHasItsOrigin(asr: Kv, diar: Kv, key: string)
    requires IsDict(asr) && IsDict(diar)
    ensures IsDict(Written(Fields(asr, diar)))
    ensures Lookup(Written(Fields(asr, diar)), key) == Origin(asr, diar, key)
  {
    var copied, fields := CopyAsr(FRESH, asr), Fields(asr, diar);
    LookupAfterCopyAsr(FRESH, asr, key);
    LookupAfterStating(copied, key);
    LookupAfterCopyDiarizer(Stated(copied), diar, key);
    FieldReachesFile(fields, key);
    LookupInFront(FRESH, key);
  }

  lemma FieldReachesFile(fields: Kv, key: string)
    requires IsDict(fields)
    ensures IsDict(Written(fields))
    ensures Lookup(Written(fields), key) ==
            if !Has(fields, key) && key in CAPABILITIES then Some(Flag(false)) else Lookup(fields, key)
  {
    var declared := DeclareMissing(fields, CAPABILITIES, Flag(false));
    EveryCapabilityIsStated(fields, CAPABILITIES, Flag(false));
    BulkIsDistinct();
    MoveBulkKeepsFields(declared, BULK);
    SameFieldsSameLookup(Written(fields), declared, key);
    LookupAfterDeclaring(fields, CAPABILITIES, Flag(false), key);
  }

  // ----- Telling the two halves apart -----

  function Plain<T>(ts: seq<Tensor<T>>): seq<Tensor<T>> {
    if ts == [] then []
    else Plain(ts[..|ts| - 1]) + (if StartsWith(ts[|ts| - 1].name, PREFIX) then [] else [ts[|ts| - 1]])
  }

  function Prefixed<T>(ts: seq<Tensor<T>>): seq<Tensor<T>> {
    if ts == [] then []
    else
      var last := ts[|ts| - 1];
      Prefixed(ts[..|ts| - 1]) +
      (if StartsWith(last.name, PREFIX) then [Tensor(last.name[|PREFIX|..], last.data)] else [])
  }

  lemma {:induction false} SeparateAppend<T>(a: seq<Tensor<T>>, b: seq<Tensor<T>>)
    ensures Plain(a + b) == Plain(a) + Plain(b) && Prefixed(a + b) == Prefixed(a) + Prefixed(b)
  {
    if b == [] {
      assert a + b == a;
    } else {
      SeparateAppend(a, b[..|b| - 1]);
      assert (a + b)[..|a + b| - 1] == a + b[..|b| - 1];
    }
  }

  lemma {:induction false} RenamedSeparates<T>(ts: seq<Tensor<T>>)
    ensures Plain(Renamed(ts)) == [] && Prefixed(Renamed(ts)) == ts
  {
    if ts != [] {
      var r, last := Renamed(ts), ts[|ts| - 1];
      RenamedSeparates(ts[..|ts| - 1]);
      assert r[..|r| - 1] == Renamed(ts[..|ts| - 1]);
      assert (PREFIX + last.name)[|PREFIX|..] == last.name;
    }
  }

  lemma {:induction false} PlainIsAll<T>(ts: seq<Tensor<T>>)
    ensures |Plain(ts)| <= |ts|
    ensures Plain(ts) == ts <==> forall i :: 0 <= i < |ts| ==> !StartsWith(ts[i].name, PREFIX)
    ensures Plain(ts) == ts <==> Prefixed(ts) == []
  {
    if ts != [] {
      var front := ts[..|ts| - 1];
      PlainIsAll(front);
      assert ts == front + [ts[|ts| - 1]];
      assert forall i :: 0 <= i < |front| ==> front[i] == ts[i];
      if Plain(ts) == ts {
        assert |Plain(front)| == |front|;
        assert Plain(front) == Plain(ts)[..|front|];
      }
    }
  }

  /** Composing and then separating by the prefix gives both tensor lists back, in
      order, exactly when no recognizer tensor carries the prefix. */
  lemma SeparationIff<T>(asr: seq<Tensor<T>>, diar: seq<Tensor<T>>)
    ensures Plain(Bundled(asr, diar)) == asr && Prefixed(Bundled(asr, diar)) == diar <==>
            forall i :: 0 <= i < |asr| ==> !StartsWith(asr[i].name, PREFIX)
  {
    SeparateAppend(asr, Renamed(diar));
    RenamedSeparates(diar);
    PlainIsAll(asr);
  }

  ghost predicate NamesDistinct<T(!new)>(ts: seq<Tensor<T>>) {
    forall i, j :: 0 <= i < j < |ts| ==> ts[i].name != ts[j].name
  }

  /** Names stay apart exactly when no recognizer tensor is called what a diarizer tensor
      becomes. */
  lemma BundledNamesDistinctIff<T(!new)>(asr: seq<Tensor<T>>, diar: seq<Tensor<T>>)
    requires NamesDistinct(asr) && NamesDistinct(diar)
    ensures NamesDistinct(Bundled(asr, diar)) <==>
            forall i, j :: 0 <= i < |asr| && 0 <= j < |diar| ==> asr[i].name != PREFIX + diar[j].name
  {
    var r, out := Renamed(diar), Bundled(asr, diar);
    forall i, j | 0 <= i < j < |diar| ensures r[i].name != r[j].name {
      assert r[i].name[|PREFIX|..] == diar[i].name && r[j].name[|PREFIX|..] == diar[j].name;
    }
    if NamesDistinct(out) {
      forall i, j | 0 <= i < |asr| && 0 <= j < |diar| ensures asr[i].name != PREFIX + diar[j].name {
        assert out[i] == asr[i] && out[|asr| + j] == r[j];
      }
    }
  }

  /** The composed file passes the audit of its layout. */
  lemma BundlePassesAudit(virtual: seq<string>, asr: Kv, diar: Kv)
    requires BulkFree(virtual, BULK) && Distinct(virtual + Keys(Written(Fields(asr, diar))))
    ensures TrailerOk(virtual + Keys(Written(Fields(asr, diar))), BULK)
  {
    var f := Field(DIARIZATION, Flag(true));
    CopyAsrIsDict(FRESH, asr);
    StatedDiarizes(CopyAsr(FRESH, asr));
    OwnKeysDiffer();
    CopyDiarizerKeeps(Stated(CopyAsr(FRESH, asr)), diar, f);
    EveryCapabilityIsStated(Fields(asr, diar), CAPABILITIES, Flag(false));
    BulkIsDistinct();
    WriterPassesAudit(virtual, DeclareMissing(Fields(asr, diar), CAPABILITIES, Flag(false)), BULK);
  }
}
