/** Setup checks and the deployment certificate of one station (app/api/setup.py). A SHA-256 signature
    stands for the fields it covers, so equal signatures mean equal fields. */
module SetupCertification {
  import opened Wrappers
  import PyText

  datatype Check =
    | Backend | MediaRuntime | WebView2 | Station | LocalOutput | StreamOutput
    | Ollama | LocalTtsRuntime | AiTts | StartupAiBuffer

  const DEFAULT_AI_STACK := "ollama_local_qwen_tts"
  const DEFAULT_AI_LLM_MODEL := "Qwen/Qwen2.5-0.5B-Instruct"
  const DEFAULT_AI_TTS_PROVIDER := "local-qwen-tts"
  const DEFAULT_STATION_NAME := "RadioTEDU OnAir"

  datatype Output = Output(
    localEnabled: bool, device: string, icecastEnabled: bool, host: string, port: int, mount: string,
    user: string, password: string, codec: string, bitrate: int)

  /** A stored switch: its text, and whether the text reads as true. */
  datatype Switch = Switch(text: string, on: bool)

  const ON := Switch("true", true)
  const OFF := Switch("false", false)

  /** The AI settings; the switch may be missing, and its two readers then assume different values. */
  datatype AiSettings = AiSettings(
    hostEnabled: Option<Switch>, llmModel: string, provider: string, modelPath: string,
    persona: string, stack: string, warmth: string)

  // What each signature covers.
  datatype Signature =
    | OfLocal(enabled: bool, device: string)
    | OfStream(icecast: bool, host: string, port: int, mount: string, user: string, password: string,
               codec: string, bitrate: int)
    | OfAi(hostEnabled: string, llmModel: string, provider: string, modelPath: string, persona: string, stack: string)
    | OfDeployment(name: string, required: set<Check>, local: Signature, stream: Signature, ai: Signature,
                   aiEnabled: bool, aiStack: string, warmth: string, startup: Startup)

  datatype Startup = Startup(state: string, required: int, readyIntros: int, ready: bool)

  datatype Store = Store(
    station: int, name: string, output: Output, ai: AiSettings,
    completed: bool, certified: bool, certificate: Option<Signature>,
    localVerified: bool, localSignature: Option<Signature>,
    streamVerified: bool, streamTestPassed: bool, streamSignature: Option<Signature>,
    aiVerified: bool, aiTestPassed: bool, aiSignature: Option<Signature>)

  /** What the machine answers while one request is served. */
  datatype World = World(
    mediaReady: bool, webviewInstalled: bool, streamReachable: bool,
    aiReady: bool, aiProvider: string, qwenInstalled: bool,
    ollamaInstalled: bool, ollamaRunning: bool, readyIntros: int, requiredIntros: int)

  // ---- The state shown to the operator ------------------------------------------------------

  function Or<T>(o: Option<T>, default: T): T {
    match o
    case None => default
    case Some(v) => v
  }

  predicate AiEnabled(s: Store) { Or(s.ai.hostEnabled, ON).on }

  predicate AiHostOn(s: Store) { Or(s.ai.hostEnabled, OFF).on }

  function StationName(s: Store): string { if s.name == "" then DEFAULT_STATION_NAME else s.name }

  function LocalSignature(o: Output): Signature { OfLocal(o.localEnabled, o.device) }

  function StreamSignature(o: Output): Signature {
    OfStream(o.icecastEnabled, o.host, o.port, o.mount, o.user, o.password, o.codec, o.bitrate)
  }

  function AiSignature(a: AiSettings): Signature {
    OfAi(Or(a.hostEnabled, OFF).text, a.llmModel, a.provider, a.modelPath, a.persona, a.stack)
  }

  function StartupOf(s: Store, w: World): Startup {
    if !AiHostOn(s) then Startup("disabled", 0, 0, true)
    else
      var ready := w.readyIntros >= w.requiredIntros;
      Startup(if ready then "ready" else "warming", w.requiredIntros, w.readyIntros, ready)
  }

  predicate StreamConfigured(o: Output) {
    && o.icecastEnabled && o.host != "" && 1 <= o.port <= 65535
    && PyText.Strip(o.mount) != "" && PyText.Strip(o.user) != "" && PyText.Strip(o.password) != ""
  }

  predicate AiRuntimeReady(s: Store, w: World) { AiHostOn(s) && w.aiReady }

  predicate LiveAiVoice(s: Store, w: World) {
    AiRuntimeReady(s, w) && StartupOf(s, w).ready && PyText.Strip(w.aiProvider) == DEFAULT_AI_TTS_PROVIDER
  }

  predicate AiTested(s: Store, w: World) { s.aiTestPassed || LiveAiVoice(s, w) }

  predicate AiStored(s: Store) { s.aiVerified && s.aiSignature == Some(AiSignature(s.ai)) }

  predicate Ready(s: Store, w: World, c: Check) {
    match c
    case Backend => true
    case MediaRuntime => w.mediaReady
    case WebView2 => w.webviewInstalled
    case Station => PyText.Strip(StationName(s)) != ""
    case LocalOutput =>
      s.output.localEnabled && s.localVerified && s.localSignature == Some(LocalSignature(s.output))
    case StreamOutput =>
      && StreamConfigured(s.output) && w.streamReachable && s.streamTestPassed
      && s.streamVerified && s.streamSignature == Some(StreamSignature(s.output))
    case Ollama => !AiEnabled(s) || (w.ollamaInstalled && w.ollamaRunning)
    // The Python runtime is asked for only where the voice runtime is found already.
    case LocalTtsRuntime => !AiEnabled(s) || w.qwenInstalled
    case AiTts =>
      || !AiEnabled(s)
      || (AiRuntimeReady(s, w) && AiTested(s, w) && (AiStored(s) || LiveAiVoice(s, w) || s.completed))
    case StartupAiBuffer => StartupOf(s, w).ready
  }

  function Required(s: Store): set<Check> {
    {Backend, MediaRuntime, WebView2, Station}
    + (if s.output.localEnabled then {LocalOutput} else {})
    + (if s.output.icecastEnabled then {StreamOutput} else {})
    + (if AiEnabled(s) then {Ollama, LocalTtsRuntime, AiTts, StartupAiBuffer} else {})
  }

  predicate CanComplete(s: Store, w: World) {
    forall c :: c in Required(s) ==> Ready(s, w, c)
  }

  /** The plain output fields of the deployment signature repeat what the two output hashes cover. */
  function DeploymentSignature(s: Store, w: World): Signature {
    OfDeployment(StationName(s), Required(s), LocalSignature(s.output), StreamSignature(s.output), AiSignature(s.ai),
                 AiEnabled(s), if s.ai.stack == "" then DEFAULT_AI_STACK else s.ai.stack, s.ai.warmth, StartupOf(s, w))
  }

  predicate Completed(s: Store, w: World) {
    s.completed && CanComplete(s, w) && s.certified && s.certificate == Some(DeploymentSignature(s, w))
  }

  // ---- Requests -----------------------------------------------------------------------------

  datatype Request =
    | Configure(name: string, output: Output, aiEnabled: bool, persona: string, warmth: string, modelPath: string)
    | TestAi(ok: bool)
    | Verify(check: Check, world: World, testOk: bool)
    | Complete(world: World)
      // A reset writes to the id it is given; every other request goes to the station that id resolves to.
    | Reset(id: int)
      // Other pages change the name, the outputs and the AI settings.
    | Outside(name: string, output: Output, ai: AiSettings)

  datatype Outcome = Done | BadRequest | Conflict

  predicate Verifiable(c: Check) { c in {LocalOutput, StreamOutput, AiTts} }

  /** The verification goes as far as the stream test, or for the others as far as the stored mark. */
  predicate Admitted(s: Store, c: Check, w: World) {
    match c
    case LocalOutput => s.output.localEnabled
    case StreamOutput => StreamConfigured(s.output) && w.streamReachable
    case AiTts => AiRuntimeReady(s, w) && AiTested(s, w)
    case _ => false
  }

  function Configured(s: Store, r: Request): Store
    requires r.Configure?
  {
    s.(name := if r.name == "" then DEFAULT_STATION_NAME else r.name, output := r.output,
       ai := AiSettings(Some(if r.aiEnabled then ON else OFF), DEFAULT_AI_LLM_MODEL, DEFAULT_AI_TTS_PROVIDER,
                        r.modelPath, r.persona, DEFAULT_AI_STACK, r.warmth),
       completed := false, localVerified := false, streamVerified := false, streamTestPassed := false,
       aiVerified := false, aiTestPassed := false)
  }

  function After(s: Store, r: Request): Store {
    match r
    case Configure(_, o, _, _, _, _) => if o.localEnabled || o.icecastEnabled then Configured(s, r) else s
    case TestAi(ok) => s.(aiTestPassed := ok, aiVerified := false, completed := false)
    case Verify(c, w, testOk) =>
      if !Admitted(s, c, w) then s
      else
        var t := s.(completed := false, certified := false, certificate := None);
        (match c
         case LocalOutput => t.(localVerified := true, localSignature := Some(LocalSignature(s.output)))
         case StreamOutput =>
           if testOk then t.(streamTestPassed := true, streamVerified := true, streamSignature := Some(StreamSignature(s.output)))
           else t.(streamTestPassed := false)
         case AiTts => t.(aiVerified := true, aiSignature := Some(AiSignature(s.ai)))
         case _ => s)
    case Complete(w) =>
      if CanComplete(s, w) then s.(completed := true, certified := true, certificate := Some(DeploymentSignature(s, w))) else s
    case Reset(id) =>
      if id == s.station then
        s.(completed := false, localVerified := false, streamVerified := false, streamTestPassed := false,
           aiVerified := false, aiTestPassed := false, certified := false, certificate := None)
      else s
    case Outside(name, o, a) => s.(name := name, output := o, ai := a)
  }

  function Run(s: Store, rs: seq<Request>): Store {
    if rs == [] then s else After(Run(s, rs[..|rs| - 1]), rs[|rs| - 1])
  }

  /** A station setup has not touched yet. */
  predicate Untouched(s: Store) {
    !s.completed && !s.certified && !s.localVerified && !s.streamVerified && !s.streamTestPassed && !s.aiVerified
  }

  // ---- What a request does to each of the four marks ----------------------------------------

  datatype Mark = LocalMark | StreamMark | AiMark | CertificateMark

  datatype Effect = Keeps | Clears | Sets(signature: Signature)

  function EffectOf(s: Store, r: Request, m: Mark): Effect {
    match r
    case Configure(_, o, _, _, _, _) => if o.localEnabled || o.icecastEnabled then Clears else Keeps
    case TestAi(_) => if m == AiMark || m == CertificateMark then Clears else Keeps
    case Verify(c, w, testOk) =>
      if !Admitted(s, c, w) then Keeps
      else if m == CertificateMark then Clears
      else if m == LocalMark && c == LocalOutput then Sets(LocalSignature(s.output))
      else if m == StreamMark && c == StreamOutput then if testOk then Sets(StreamSignature(s.output)) else Clears
      else if m == AiMark && c == AiTts then Sets(AiSignature(s.ai))
      else Keeps
    case Complete(w) =>
      if m == CertificateMark && CanComplete(s, w) then Sets(DeploymentSignature(s, w)) else Keeps
    case Reset(id) => if id == s.station then Clears else Keeps
    case Outside(_, _, _) => Keeps
  }

  function Held(s: Store, m: Mark): Option<Signature> {
    match m
    case LocalMark => if s.localVerified then s.localSignature else None
    case StreamMark => if s.streamVerified && s.streamTestPassed then s.streamSignature else None
    case AiMark => if s.aiVerified then s.aiSignature else None
    case CertificateMark => if s.completed && s.certified then s.certificate else None
  }

  lemma EffectHolds(s: Store, r: Request, m: Mark)
    ensures Held(After(s, r), m) == Applied(Held(s, m), EffectOf(s, r, m))
  {
    if r.Verify? {
      VerifyEffect(s, r, m);
    } else if r.Complete? {
      CompleteEffect(s, r, m);
    }
  }

  lemma VerifyEffect(s: Store, r: Request, m: Mark)
    requires r.Verify?
    ensures Held(After(s, r), m) == Applied(Held(s, m), EffectOf(s, r, m))
  {
    match r.check
    case LocalOutput => VerifyLocalEffect(s, r, m);
    case StreamOutput => VerifyStreamEffect(s, r, m);
    case AiTts => VerifyAiEffect(s, r, m);
    case _ => assert After(s, r) == s;
  }

  lemma VerifyLocalEffect(s: Store, r: Request, m: Mark)
    requires r.Verify? && r.check == LocalOutput
    ensures Held(After(s, r), m) == Applied(Held(s, m), EffectOf(s, r, m))
  {}

  lemma VerifyStreamEffect(s: Store, r: Request, m: Mark)
    requires r.Verify? && r.check == StreamOutput
    ensures Held(After(s, r), m) == Applied(Held(s, m), EffectOf(s, r, m))
  {}

  lemma VerifyAiEffect(s: Store, r: Request, m: Mark)
    requires r.Verify? && r.check == AiTts
    ensures Held(After(s, r), m) == Applied(Held(s, m), EffectOf(s, r, m))
  {}

  lemma CompleteEffect(s: Store, r: Request, m: Mark)
    requires r.Complete?
    ensures Held(After(s, r), m) == Applied(Held(s, m), EffectOf(s, r, m))
  {}

  function Applied(held: Option<Signature>, e: Effect): Option<Signature> {
    match e
    case Keeps => held
    case Clears => None
    case Sets(x) => Some(x)
  }

  /** The effects of a run on one mark, request by request. */
  function Effects(s: Store, rs: seq<Request>, m: Mark): (es: seq<Effect>)
    ensures |es| == |rs|
  {
    if rs == [] then []
    else var n := |rs| - 1; Effects(s, rs[..n], m) + [EffectOf(Run(s, rs[..n]), rs[n], m)]
  }

  lemma EffectsSnoc(s: Store, rs: seq<Request>, m: Mark)
    requires rs != []
    ensures var n := |rs| - 1;
            Effects(s, rs, m)[..n] == Effects(s, rs[..n], m) && Effects(s, rs, m)[n] == EffectOf(Run(s, rs[..n]), rs[n], m)
  {}

  lemma {:induction false} EffectAt(s: Store, rs: seq<Request>, m: Mark, i: nat)
    requires i < |rs|
    ensures Effects(s, rs, m)[i] == EffectOf(Run(s, rs[..i]), rs[i], m)
    ensures Effects(s, rs, m)[..i] == Effects(s, rs[..i], m)
  {
    var n := |rs| - 1;
    EffectsSnoc(s, rs, m);
    if i < n {
      EffectAt(s, rs[..n], m, i);
      assert rs[..n][..i] == rs[..i];
    }
  }

  /** Effect i set the mark to x, and no later one touched it. */
  ghost predicate LastSet(es: seq<Effect>, x: Signature, i: nat) {
    i < |es| && es[i] == Sets(x) && forall j :: i < j < |es| ==> es[j] == Keeps
  }

  ghost predicate Stands(es: seq<Effect>, x: Signature) {
    exists i: nat :: LastSet(es, x, i)
  }

  lemma StandsStep(es: seq<Effect>, e: Effect, x: Signature)
    ensures Stands(es + [e], x) <==> e == Sets(x) || (e == Keeps && Stands(es, x))
  {
    var longer := es + [e];
    assert e == Sets(x) ==> LastSet(longer, x, |es|);
    if e == Keeps && Stands(es, x) {
      var i: nat :| LastSet(es, x, i);
      assert LastSet(longer, x, i);
    }
    if Stands(longer, x) {
      var i: nat :| LastSet(longer, x, i);
      assert longer[|es|] == e;
      if i < |es| {
        forall j | i < j < |es| ensures es[j] == Keeps {
          assert longer[j] == es[j];
        }
        assert LastSet(es, x, i);
      }
    }
  }

  /** A mark is held for x exactly when some request of the run set it to x and nothing after it
      cleared or replaced it. */
  lemma {:induction false} HeldMeansStands(s: Store, rs: seq<Request>, m: Mark, x: Signature)
    requires Untouched(s)
    ensures Held(Run(s, rs), m) == Some(x) <==> Stands(Effects(s, rs, m), x)
  {
    if rs != [] {
      var n := |rs| - 1;
      HeldMeansStands(s, rs[..n], m, x);
      EffectHolds(Run(s, rs[..n]), rs[n], m);
      StandsStep(Effects(s, rs[..n], m), EffectOf(Run(s, rs[..n]), rs[n], m), x);
    }
  }

  // ---- Certification ------------------------------------------------------------------------

  /** Over any run: setup shows as completed exactly when every required check is ready now and the
      last thing to touch the certificate was a completion that signed the very fields in force now. */
  lemma CompletedExactly(s: Store, rs: seq<Request>, w: World)
    requires Untouched(s)
    ensures var t := Run(s, rs);
            Completed(t, w) <==>
            CanComplete(t, w) && Stands(Effects(s, rs, CertificateMark), DeploymentSignature(t, w))
  {
    HeldMeansStands(s, rs, CertificateMark, DeploymentSignature(Run(s, rs), w));
  }

  /** Over any run: the stream check is ready exactly when the destination answers, and the last stream
      test, with no configuration or reset since, passed for the stream fields in force now. */
  lemma StreamReadyExactly(s: Store, rs: seq<Request>, w: World)
    requires Untouched(s)
    ensures var t := Run(s, rs);
            Ready(t, w, StreamOutput) <==>
            && StreamConfigured(t.output) && w.streamReachable
            && Stands(Effects(s, rs, StreamMark), StreamSignature(t.output))
  {
    HeldMeansStands(s, rs, StreamMark, StreamSignature(Run(s, rs).output));
  }

  /** The same for the local output. */
  lemma LocalReadyExactly(s: Store, rs: seq<Request>, w: World)
    requires Untouched(s)
    ensures var t := Run(s, rs);
            Ready(t, w, LocalOutput) <==>
            t.output.localEnabled && Stands(Effects(s, rs, LocalMark), LocalSignature(t.output))
  {
    HeldMeansStands(s, rs, LocalMark, LocalSignature(Run(s, rs).output));
  }

  /** A completed station with Icecast on: its last stream test passed for the fields the certificate
      signs, and the certificate was issued after that test. */
  lemma CertifiedStreamWasTested(s: Store, rs: seq<Request>, w: World)
    requires Untouched(s) && Completed(Run(s, rs), w) && Run(s, rs).output.icecastEnabled
    ensures var t := Run(s, rs);
            exists tested: nat, issued: nat ::
              && LastSet(Effects(s, rs, StreamMark), StreamSignature(t.output), tested)
              && LastSet(Effects(s, rs, CertificateMark), DeploymentSignature(t, w), issued)
              && tested < issued
  {
    var t := Run(s, rs);
    assert StreamOutput in Required(t);
    StreamReadyExactly(s, rs, w);
    CompletedExactly(s, rs, w);
    var tested: nat :| LastSet(Effects(s, rs, StreamMark), StreamSignature(t.output), tested);
    var issued: nat :| LastSet(Effects(s, rs, CertificateMark), DeploymentSignature(t, w), issued);
    EffectAt(s, rs, StreamMark, tested);
    EffectAt(s, rs, CertificateMark, tested);
    StreamTestRevokes(Run(s, rs[..tested]), rs[tested]);
  }

  lemma StreamTestRevokes(s: Store, r: Request)
    ensures EffectOf(s, r, StreamMark).Sets? ==> EffectOf(s, r, CertificateMark) == Clears
  {}

  // ---- What the signatures cover ------------------------------------------------------------

  ghost predicate SameLocal(a: Output, b: Output) {
    a.localEnabled == b.localEnabled && a.device == b.device
  }

  ghost predicate SameStream(a: Output, b: Output) {
    && a.icecastEnabled == b.icecastEnabled && a.host == b.host && a.port == b.port && a.mount == b.mount
    && a.user == b.user && a.password == b.password && a.codec == b.codec && a.bitrate == b.bitrate
  }

  /** A missing switch reads as off here. */
  ghost predicate SameAi(a: AiSettings, b: AiSettings) {
    && (if a.hostEnabled.Some? then a.hostEnabled.value.text else "false")
       == (if b.hostEnabled.Some? then b.hostEnabled.value.text else "false")
    && a.llmModel == b.llmModel && a.provider == b.provider && a.modelPath == b.modelPath
    && a.persona == b.persona && a.stack == b.stack
  }

  /** Missing, the switch turns the AI checks on and the AI host off. */
  ghost predicate ChecksAi(s: Store) { s.ai.hostEnabled == None || s.ai.hostEnabled.value.on }

  ghost predicate HostsAi(s: Store) { s.ai.hostEnabled.Some? && s.ai.hostEnabled.value.on }

  /** The two stations would be given the same certificate: name, outputs, AI settings, and, with the AI host
      on, the intros that are ready and those that are required. */
  ghost predicate SameDeployment(s: Store, v: World, t: Store, w: World) {
    && (if s.name == "" then DEFAULT_STATION_NAME else s.name) == (if t.name == "" then DEFAULT_STATION_NAME else t.name)
    && SameLocal(s.output, t.output) && SameStream(s.output, t.output) && SameAi(s.ai, t.ai)
    && s.ai.warmth == t.ai.warmth && ChecksAi(s) == ChecksAi(t) && HostsAi(s) == HostsAi(t)
    && (HostsAi(s) ==> v.readyIntros == w.readyIntros && v.requiredIntros == w.requiredIntros)
  }

  /** Equal signatures mean equal fields, one by one, and no other field counts. */
  lemma SignaturesExactly(s: Store, v: World, t: Store, w: World)
    ensures LocalSignature(s.output) == LocalSignature(t.output) <==> SameLocal(s.output, t.output)
    ensures StreamSignature(s.output) == StreamSignature(t.output) <==> SameStream(s.output, t.output)
    ensures AiSignature(s.ai) == AiSignature(t.ai) <==> SameAi(s.ai, t.ai)
    ensures DeploymentSignature(s, v) == DeploymentSignature(t, w) <==> SameDeployment(s, v, t, w)
  {}

  // ---- The runs behind what is shown --------------------------------------------------------

  ghost predicate Reconfigures(r: Request) {
    r.Configure? && (r.output.localEnabled || r.output.icecastEnabled)
  }

  ghost predicate ResetsIt(s: Store, r: Request) {
    r.Reset? && r.id == s.station
  }

  /** The stream is configured: on, with host, port, mount, user and password. */
  ghost predicate CanStream(o: Output) {
    && o.icecastEnabled && o.host != "" && 1 <= o.port <= 65535
    && PyText.Strip(o.mount) != "" && PyText.Strip(o.user) != "" && PyText.Strip(o.password) != ""
  }

  /** The request is a stream test that is started. */
  ghost predicate TestsStream(s: Store, r: Request) {
    r.Verify? && r.check == StreamOutput && CanStream(s.output) && r.world.streamReachable
  }

  /** Request i was a stream test that passed for the stream fields of `o`, and after it nothing tested,
      configured or reset. */
  ghost predicate PassedFor(s: Store, rs: seq<Request>, o: Output, i: nat) {
    && i < |rs| && TestsStream(Run(s, rs[..i]), rs[i]) && rs[i].testOk && SameStream(Run(s, rs[..i]).output, o)
    && forall j :: i < j < |rs| ==>
         !Reconfigures(rs[j]) && !ResetsIt(Run(s, rs[..j]), rs[j]) && !TestsStream(Run(s, rs[..j]), rs[j])
  }

  /** Over any run, field by field: the stream check is ready exactly when the stream is configured, its
      destination answers, and the last test, with no configuration or reset since, passed for the very
      stream fields in force now. */
  lemma ReadyStreamWasTested(s: Store, rs: seq<Request>, w: World)
    requires Untouched(s)
    ensures var t := Run(s, rs);
            Ready(t, w, StreamOutput) <==>
            CanStream(t.output) && w.streamReachable && exists i: nat :: PassedFor(s, rs, t.output, i)
  {
    var t, es := Run(s, rs), Effects(s, rs, StreamMark);
    StreamReadyExactly(s, rs, w);
    forall j: nat | j < |rs|
      ensures es[j] == Sets(StreamSignature(t.output)) <==>
              TestsStream(Run(s, rs[..j]), rs[j]) && rs[j].testOk && SameStream(Run(s, rs[..j]).output, t.output)
      ensures es[j] == Keeps <==>
              !Reconfigures(rs[j]) && !ResetsIt(Run(s, rs[..j]), rs[j]) && !TestsStream(Run(s, rs[..j]), rs[j])
    {
      EffectAt(s, rs, StreamMark, j);
      StreamEffect(Run(s, rs[..j]), rs[j], t, w);
    }
    forall i: nat ensures LastSet(es, StreamSignature(t.output), i) <==> PassedFor(s, rs, t.output, i) {}
  }

  lemma StreamEffect(s: Store, r: Request, t: Store, w: World)
    ensures EffectOf(s, r, StreamMark) == Sets(StreamSignature(t.output)) <==>
            TestsStream(s, r) && r.testOk && SameStream(s.output, t.output)
    ensures EffectOf(s, r, StreamMark) == Keeps <==> !Reconfigures(r) && !ResetsIt(s, r) && !TestsStream(s, r)
  {
    SignaturesExactly(s, w, t, w);
  }

  /** Request i verified the local output for the device of `o`, and nothing after it verified it again,
      configured or reset. */
  ghost predicate LocalVerifiedFor(s: Store, rs: seq<Request>, o: Output, i: nat) {
    && i < |rs| && VerifiesLocal(Run(s, rs[..i]), rs[i]) && SameLocal(Run(s, rs[..i]).output, o)
    && forall j :: i < j < |rs| ==>
         !Reconfigures(rs[j]) && !ResetsIt(Run(s, rs[..j]), rs[j]) && !VerifiesLocal(Run(s, rs[..j]), rs[j])
  }

  ghost predicate VerifiesLocal(s: Store, r: Request) {
    r.Verify? && r.check == LocalOutput && s.output.localEnabled
  }

  lemma ReadyLocalWasVerified(s: Store, rs: seq<Request>, w: World)
    requires Untouched(s)
    ensures var t := Run(s, rs);
            Ready(t, w, LocalOutput) <==> t.output.localEnabled && exists i: nat :: LocalVerifiedFor(s, rs, t.output, i)
  {
    var t, es := Run(s, rs), Effects(s, rs, LocalMark);
    LocalReadyExactly(s, rs, w);
    forall j: nat | j < |rs|
      ensures es[j] == Sets(LocalSignature(t.output)) <==>
              VerifiesLocal(Run(s, rs[..j]), rs[j]) && SameLocal(Run(s, rs[..j]).output, t.output)
      ensures es[j] == Keeps <==>
              !Reconfigures(rs[j]) && !ResetsIt(Run(s, rs[..j]), rs[j]) && !VerifiesLocal(Run(s, rs[..j]), rs[j])
    {
      EffectAt(s, rs, LocalMark, j);
      LocalEffect(Run(s, rs[..j]), rs[j], t.output);
    }
    forall i: nat ensures LastSet(es, LocalSignature(t.output), i) <==> LocalVerifiedFor(s, rs, t.output, i) {}
  }

  lemma LocalEffect(s: Store, r: Request, o: Output)
    ensures EffectOf(s, r, LocalMark) == Sets(LocalSignature(o)) <==> VerifiesLocal(s, r) && SameLocal(s.output, o)
    ensures EffectOf(s, r, LocalMark) == Keeps <==> !Reconfigures(r) && !ResetsIt(s, r) && !VerifiesLocal(s, r)
  {}

  /** Request i verified the AI voice with the settings `a`, and nothing after it verified or tested it again,
      configured or reset. */
  ghost predicate VoiceVerifiedFor(s: Store, rs: seq<Request>, a: AiSettings, i: nat) {
    && i < |rs| && rs[i].Verify? && rs[i].check == AiTts && VerifiesIt(Run(s, rs[..i]), rs[i])
    && SameAi(Run(s, rs[..i]).ai, a)
    && forall j :: i < j < |rs| ==>
         && !Reconfigures(rs[j]) && !ResetsIt(Run(s, rs[..j]), rs[j]) && !rs[j].TestAi?
         && !(rs[j].Verify? && rs[j].check == AiTts && VerifiesIt(Run(s, rs[..j]), rs[j]))
  }

  lemma StoredVoiceWasVerified(s: Store, rs: seq<Request>)
    requires Untouched(s)
    ensures var t := Run(s, rs); AiStored(t) <==> exists i: nat :: VoiceVerifiedFor(s, rs, t.ai, i)
  {
    var t, es := Run(s, rs), Effects(s, rs, AiMark);
    HeldMeansStands(s, rs, AiMark, AiSignature(t.ai));
    forall j: nat | j < |rs|
      ensures es[j] == Sets(AiSignature(t.ai)) <==>
              rs[j].Verify? && rs[j].check == AiTts && VerifiesIt(Run(s, rs[..j]), rs[j]) && SameAi(Run(s, rs[..j]).ai, t.ai)
      ensures es[j] == Keeps <==>
              && !Reconfigures(rs[j]) && !ResetsIt(Run(s, rs[..j]), rs[j]) && !rs[j].TestAi?
              && !(rs[j].Verify? && rs[j].check == AiTts && VerifiesIt(Run(s, rs[..j]), rs[j]))
    {
      EffectAt(s, rs, AiMark, j);
      VoiceEffect(Run(s, rs[..j]), rs[j], t);
    }
    forall i: nat ensures LastSet(es, AiSignature(t.ai), i) <==> VoiceVerifiedFor(s, rs, t.ai, i) {}
  }

  lemma VoiceEffect(s: Store, r: Request, t: Store)
    ensures EffectOf(s, r, AiMark) == Sets(AiSignature(t.ai)) <==>
            r.Verify? && r.check == AiTts && VerifiesIt(s, r) && SameAi(s.ai, t.ai)
    ensures EffectOf(s, r, AiMark) == Keeps <==>
            && !Reconfigures(r) && !ResetsIt(s, r) && !r.TestAi?
            && !(r.Verify? && r.check == AiTts && VerifiesIt(s, r))
  {}

  /** What is in force after a request: only a configuration and other pages change it. */
  lemma FieldsExactly(s: Store, r: Request)
    ensures var e := After(s, r);
            && e.station == s.station
            && e.name == (if Reconfigures(r) then (if r.name == "" then "RadioTEDU OnAir" else r.name)
                          else if r.Outside? then r.name else s.name)
            && e.output == (if Reconfigures(r) || r.Outside? then r.output else s.output)
            && e.ai == (if Reconfigures(r) then
                          AiSettings(Some(if r.aiEnabled then Switch("true", true) else Switch("false", false)),
                                     "Qwen/Qwen2.5-0.5B-Instruct", "local-qwen-tts", r.modelPath, r.persona,
                                     "ollama_local_qwen_tts", r.warmth)
                        else if r.Outside? then r.ai else s.ai)
  {
    match r {
      case Verify(c, w, testOk) => KeptByVerify(s, r);
      case Complete(w) => assert CanComplete(s, w) || After(s, r) == s;
      case _ =>
    }
  }

  lemma KeptByVerify(s: Store, r: Request)
    requires r.Verify?
    ensures var e := After(s, r); e.station == s.station && e.name == s.name && e.output == s.output && e.ai == s.ai
  {
    assert Admitted(s, r.check, r.world) || After(s, r) == s;
  }

  /** A live voice needs no verification: the host runs, its intros are there, the managed provider speaks. */
  ghost predicate IsLive(s: Store, w: World) {
    && HostsAi(s) && w.aiReady && w.readyIntros >= w.requiredIntros
    && PyText.Strip(w.aiProvider) == DEFAULT_AI_TTS_PROVIDER
  }

  /** Request i was an AI test that passed, and nothing after it tested the AI again, configured or reset. */
  ghost predicate AiPassedAt(s: Store, rs: seq<Request>, i: nat) {
    && i < |rs| && rs[i] == TestAi(true)
    && forall j: nat :: i < j < |rs| ==> LeavesTest(s, rs, j)
  }

  /** Over any run: the stored outcome of the AI test is that of the last one, with no configuration or
      reset since. */
  lemma {:induction false} AiTestIsTheLast(s: Store, rs: seq<Request>)
    requires !s.aiTestPassed
    ensures Run(s, rs).aiTestPassed <==> exists i: nat :: AiPassedAt(s, rs, i)
  {
    if rs != [] {
      var n := |rs| - 1;
      var front, r := rs[..n], rs[n];
      AiTestIsTheLast(s, front);
      TestOutcome(Run(s, front), r);
      forall i: nat ensures AiPassedAt(s, rs, i) <==> (i == n && r == TestAi(true)) || (LeavesTest(s, rs, n) && AiPassedAt(s, front, i)) {
        PassedBefore(s, rs, i);
      }
      if r == TestAi(true) {
        assert AiPassedAt(s, rs, n);
      }
    }
  }

  /** Request j leaves the outcome of the AI test. */
  ghost predicate LeavesTest(s: Store, rs: seq<Request>, j: nat)
    requires j < |rs|
  {
    !rs[j].TestAi? && !Reconfigures(rs[j]) && !ResetsIt(Run(s, rs[..j]), rs[j])
  }

  lemma PassedBefore(s: Store, rs: seq<Request>, i: nat)
    requires rs != []
    ensures var n := |rs| - 1;
            AiPassedAt(s, rs, i) <==> (i == n && rs[n] == TestAi(true)) || (LeavesTest(s, rs, n) && AiPassedAt(s, rs[..n], i))
  {
    var n := |rs| - 1;
    var front := rs[..n];
    forall j: nat | j < n ensures LeavesTest(s, front, j) <==> LeavesTest(s, rs, j) {
      assert front[..j] == rs[..j] && front[j] == rs[j];
    }
    if i < n && LeavesTest(s, rs, n) && AiPassedAt(s, front, i) {
      forall j: nat | i < j < |rs| ensures LeavesTest(s, rs, j) {
        assert j < n ==> LeavesTest(s, front, j);
      }
    }
  }

  lemma TestOutcome(s: Store, r: Request)
    ensures After(s, r).aiTestPassed == if Reconfigures(r) || ResetsIt(s, r) then false
                                        else if r.TestAi? then r.ok else s.aiTestPassed
  {}

  /** Every required check, told by the stored marks and the machine's answers. */
  ghost predicate ChecksPass(s: Store, w: World) {
    && w.mediaReady && w.webviewInstalled
    && PyText.Strip(if s.name == "" then DEFAULT_STATION_NAME else s.name) != ""
    && (s.output.localEnabled ==>
          s.localVerified && s.localSignature == Some(OfLocal(s.output.localEnabled, s.output.device)))
    && (s.output.icecastEnabled ==>
          && CanStream(s.output) && w.streamReachable && s.streamTestPassed && s.streamVerified
          && s.streamSignature == Some(OfStream(s.output.icecastEnabled, s.output.host, s.output.port, s.output.mount,
               s.output.user, s.output.password, s.output.codec, s.output.bitrate)))
    && (ChecksAi(s) ==> AiPasses(s, w))
  }

  /** Setup can be completed exactly when they pass. With the AI switch missing the AI checks are required
      and the AI host is off, so they cannot. */
  lemma ChecksExactly(s: Store, w: World)
    ensures CanComplete(s, w) <==> ChecksPass(s, w)
  {
    var required := Required(s);
    assert Backend in required && MediaRuntime in required && WebView2 in required && Station in required;
    assert LocalOutput in required <==> s.output.localEnabled;
    assert StreamOutput in required <==> s.output.icecastEnabled;
    assert Ollama in required <==> ChecksAi(s);
    assert LocalTtsRuntime in required <==> ChecksAi(s);
    assert AiTts in required <==> ChecksAi(s);
    assert StartupAiBuffer in required <==> ChecksAi(s);
    assert CanComplete(s, w) <==>
      && Ready(s, w, MediaRuntime) && Ready(s, w, WebView2) && Ready(s, w, Station)
      && (s.output.localEnabled ==> Ready(s, w, LocalOutput)) && (s.output.icecastEnabled ==> Ready(s, w, StreamOutput))
      && (ChecksAi(s) ==> Ready(s, w, Ollama) && Ready(s, w, LocalTtsRuntime) && Ready(s, w, AiTts) && Ready(s, w, StartupAiBuffer));
    if ChecksAi(s) {
      AiChecksExactly(s, w);
    }
  }

  /** The four checks of the AI host. */
  ghost predicate AiPasses(s: Store, w: World) {
    && w.ollamaInstalled && w.ollamaRunning && w.qwenInstalled && HostsAi(s) && w.aiReady
    && w.readyIntros >= w.requiredIntros && (s.aiTestPassed || IsLive(s, w))
    && (IsLive(s, w) || s.completed
        || (s.aiVerified && s.aiSignature == Some(OfAi(s.ai.hostEnabled.value.text, s.ai.llmModel, s.ai.provider,
              s.ai.modelPath, s.ai.persona, s.ai.stack))))
  }

  lemma AiChecksExactly(s: Store, w: World)
    requires ChecksAi(s)
    ensures Ready(s, w, Ollama) && Ready(s, w, LocalTtsRuntime) && Ready(s, w, AiTts) && Ready(s, w, StartupAiBuffer)
            <==> AiPasses(s, w)
  {}

  /** A request that goes through to a mark, and so takes the certificate back. */
  ghost predicate VerifiesIt(s: Store, r: Request) {
    r.Verify? && match r.check
                 case LocalOutput => s.output.localEnabled
                 case StreamOutput => CanStream(s.output) && r.world.streamReachable
                 case AiTts =>
                   && HostsAi(s) && r.world.aiReady
                   && (s.aiTestPassed || (r.world.readyIntros >= r.world.requiredIntros
                                          && PyText.Strip(r.world.aiProvider) == DEFAULT_AI_TTS_PROVIDER))
                 case _ => false
  }

  ghost predicate TouchesCertificate(s: Store, r: Request) {
    Reconfigures(r) || ResetsIt(s, r) || r.TestAi? || VerifiesIt(s, r) || (r.Complete? && CanComplete(s, r.world))
  }

  /** Request i completed setup for what is in force now, and after it nothing configured, tested the AI,
      verified, completed or reset. */
  ghost predicate CompletedFor(s: Store, rs: seq<Request>, t: Store, w: World, i: nat) {
    && i < |rs| && rs[i].Complete? && CanComplete(Run(s, rs[..i]), rs[i].world)
    && SameDeployment(Run(s, rs[..i]), rs[i].world, t, w)
    && forall j :: i < j < |rs| ==> !TouchesCertificate(Run(s, rs[..j]), rs[j])
  }

  /** Over any run, field by field: setup shows as completed exactly when every required check is ready now,
      and some completion was admitted for the very name, outputs and AI settings in force now, with
      nothing since that takes a certificate back. */
  lemma CompletedForTheseFields(s: Store, rs: seq<Request>, w: World)
    requires Untouched(s)
    ensures var t := Run(s, rs);
            Completed(t, w) <==> CanComplete(t, w) && exists i: nat :: CompletedFor(s, rs, t, w, i)
  {
    var t, es := Run(s, rs), Effects(s, rs, CertificateMark);
    CompletedExactly(s, rs, w);
    forall j: nat | j < |rs|
      ensures es[j] == Sets(DeploymentSignature(t, w)) <==>
              rs[j].Complete? && CanComplete(Run(s, rs[..j]), rs[j].world) && SameDeployment(Run(s, rs[..j]), rs[j].world, t, w)
      ensures es[j] == Keeps <==> !TouchesCertificate(Run(s, rs[..j]), rs[j])
    {
      EffectAt(s, rs, CertificateMark, j);
      CertificateEffect(Run(s, rs[..j]), rs[j], t, w);
    }
    forall i: nat ensures LastSet(es, DeploymentSignature(t, w), i) <==> CompletedFor(s, rs, t, w, i) {}
  }

  lemma CertificateEffect(s: Store, r: Request, t: Store, w: World)
    ensures EffectOf(s, r, CertificateMark) == Sets(DeploymentSignature(t, w)) <==>
            r.Complete? && CanComplete(s, r.world) && SameDeployment(s, r.world, t, w)
    ensures EffectOf(s, r, CertificateMark) == Keeps <==> !TouchesCertificate(s, r)
  {
    if r.Complete? {
      SignaturesExactly(s, r.world, t, w);
    }
  }

  // ---- The AI voice -------------------------------------------------------------------------

  /** Request k issued a certificate where none was in force, and none was revoked since. */
  ghost predicate FirstIssue(es: seq<Effect>, k: nat) {
    && k < |es| && es[k].Sets? && (forall x :: !Stands(es[..k], x))
    && forall j :: k < j < |es| ==> es[j] != Clears
  }

  lemma {:induction false} StandsHasFirst(es: seq<Effect>, x: Signature)
    requires Stands(es, x)
    ensures exists k: nat :: FirstIssue(es, k)
    decreases |es|
  {
    var n := |es| - 1;
    assert es == es[..n] + [es[n]];
    StandsStep(es[..n], es[n], x);
    if y :| Stands(es[..n], y) {
      StandsHasFirst(es[..n], y);
      var k: nat :| FirstIssue(es[..n], k);
      assert es[..n][..k] == es[..k];
      forall j | k < j < |es| ensures es[j] != Clears {
        assert j < n ==> es[..n][j] == es[j];
      }
      assert FirstIssue(es, k);
    } else {
      assert FirstIssue(es, n);
    }
  }

  predicate Consistent(s: Store) {
    s.completed ==> s.certified && s.certificate.Some?
  }

  lemma FlagStep(s: Store, r: Request)
    requires Consistent(s)
    ensures Consistent(After(s, r))
  {
    match r {
      case Complete(w) => assert After(s, r) == s || After(s, r).certificate == Some(DeploymentSignature(s, w));
      case Verify(c, w, ok) => assert After(s, r) == s || !After(s, r).completed;
      case _ =>
    }
  }

  /** The completed flag is set exactly while a certificate stands. */
  lemma {:induction false} FlagMeansCertificate(s: Store, rs: seq<Request>)
    requires Untouched(s)
    ensures Consistent(Run(s, rs))
    ensures Run(s, rs).completed <==> exists x :: Stands(Effects(s, rs, CertificateMark), x)
  {
    var t := Run(s, rs);
    if rs != [] {
      FlagMeansCertificate(s, rs[..|rs| - 1]);
      FlagStep(Run(s, rs[..|rs| - 1]), rs[|rs| - 1]);
    }
    if t.completed {
      HeldMeansStands(s, rs, CertificateMark, t.certificate.value);
    }
    if x :| Stands(Effects(s, rs, CertificateMark), x) {
      HeldMeansStands(s, rs, CertificateMark, x);
    }
  }

  /** What a certificate says about the AI voice: when it was first issued, the voice was live or
      verified for the settings of that moment. */
  lemma FirstIssueProvesAi(s: Store, rs: seq<Request>)
    requires Untouched(s) && Run(s, rs).completed
    ensures exists k: nat :: FirstIssue(Effects(s, rs, CertificateMark), k) && AiProvenAt(s, rs, k)
  {
    FlagMeansCertificate(s, rs);
    var es := Effects(s, rs, CertificateMark);
    var x :| Stands(es, x);
    StandsHasFirst(es, x);
    var k: nat :| FirstIssue(es, k);
    IssueProvesAi(s, rs, k);
  }

  lemma IssueProvesAi(s: Store, rs: seq<Request>, k: nat)
    requires Untouched(s) && FirstIssue(Effects(s, rs, CertificateMark), k)
    ensures AiProvenAt(s, rs, k)
  {
    var at := Run(s, rs[..k]);
    EffectAt(s, rs, CertificateMark, k);
    FlagMeansCertificate(s, rs[..k]);
    IssueNeedsAi(at, rs[k]);
    HeldMeansStands(s, rs[..k], AiMark, AiSignature(at.ai));
  }

  lemma IssueNeedsAi(s: Store, r: Request)
    requires !s.completed && EffectOf(s, r, CertificateMark).Sets?
    ensures r.Complete? && (AiEnabled(s) ==> AiStored(s) || LiveAiVoice(s, r.world))
  {
    if AiEnabled(s) {
      assert AiTts in Required(s) && Ready(s, r.world, AiTts);
    }
  }

  ghost predicate AiProvenAt(s: Store, rs: seq<Request>, k: nat) {
    && k < |rs| && rs[k].Complete?
    && var at := Run(s, rs[..k]);
       AiEnabled(at) ==> LiveAiVoice(at, rs[k].world) || Stands(Effects(s, rs[..k], AiMark), AiSignature(at.ai))
  }

  /** A later completion proves nothing more: while the completed flag is set, a completion is admitted
      for AI settings no verification has seen, exactly when the rest is ready and an AI test is on record. */
  lemma RecompletionIgnoresAiProof(s: Store, w: World)
    requires s.completed && AiEnabled(s) && !AiStored(s) && !LiveAiVoice(s, w)
    ensures Completed(After(s, Complete(w)), w) <==>
            (forall c :: c in Required(s) && c != AiTts ==> Ready(s, w, c)) && AiRuntimeReady(s, w) && s.aiTestPassed
  {
    assert AiTts in Required(s);
    if CanComplete(s, w) {
      CompletionHolds(s, w);
      assert Ready(s, w, AiTts);
    }
  }

  const MONITOR := Output(true, "", false, "", 0, "", "", "", "", 0)

  function Voice(persona: string): AiSettings {
    AiSettings(Some(ON), DEFAULT_AI_LLM_MODEL, DEFAULT_AI_TTS_PROVIDER, "", persona, DEFAULT_AI_STACK, "warm")
  }

  /** A machine on which everything runs, the voice from another provider than the managed one. */
  predicate Equipped(w: World) {
    && w.mediaReady && w.webviewInstalled && w.aiReady && w.qwenInstalled && w.ollamaInstalled && w.ollamaRunning
    && w.readyIntros >= w.requiredIntros && PyText.Strip(w.aiProvider) != DEFAULT_AI_TTS_PROVIDER
  }

  /** The station uses the monitor, verified, and a tested voice. */
  predicate VoiceTested(s: Store, persona: string) {
    && s.name == DEFAULT_STATION_NAME && s.output == MONITOR && s.ai == Voice(persona)
    && s.localVerified && s.localSignature == Some(LocalSignature(MONITOR)) && s.aiTestPassed
  }

  lemma VoiceCompletes(s: Store, w: World, persona: string)
    requires VoiceTested(s, persona) && Equipped(w) && (AiStored(s) || s.completed)
    ensures CanComplete(s, w) && Completed(After(s, Complete(w)), w)
  {
    StationNameFits();
    assert Required(s) == {Backend, MediaRuntime, WebView2, Station, LocalOutput, Ollama, LocalTtsRuntime, AiTts, StartupAiBuffer};
    CompletionHolds(s, w);
  }

  function VoiceRun(w: World, persona: string): seq<Request> {
    [Configure("", MONITOR, true, persona, "warm", ""), Verify(LocalOutput, w, true), TestAi(true), Verify(AiTts, w, true), Complete(w)]
  }

  lemma VoiceVerified(s: Store, w: World, persona: string)
    requires Equipped(w)
    ensures var t := Run(s, VoiceRun(w, persona)[..4]); VoiceTested(t, persona) && AiStored(t)
  {
    var rs := VoiceRun(w, persona);
    RunSnoc(s, rs, 4); RunSnoc(s, rs, 3); RunSnoc(s, rs, 2); RunSnoc(s, rs, 1);
    assert Run(s, rs[..1]) == After(s, rs[0]);
  }

  /** Such a run: verified for one voice, certified for another. */
  lemma UnprovenVoiceCertified(s: Store, w: World, persona: string, other: string)
    requires Untouched(s) && Equipped(w) && persona != other
    ensures var rs := VoiceRun(w, persona) + [Outside(DEFAULT_STATION_NAME, MONITOR, Voice(other)), Complete(w)];
            && Completed(Run(s, rs), w) && Run(s, rs).ai == Voice(other)
            && !Stands(Effects(s, rs, AiMark), AiSignature(Voice(other)))
  {
    var rs := VoiceRun(w, persona) + [Outside(DEFAULT_STATION_NAME, MONITOR, Voice(other)), Complete(w)];
    assert rs[..4] == VoiceRun(w, persona)[..4] && rs[..7] == rs;
    VoiceVerified(s, w, persona);
    RunSnoc(s, rs, 5); RunSnoc(s, rs, 6); RunSnoc(s, rs, 7);
    VoiceCompletes(Run(s, rs[..4]), w, persona);
    VoiceSwitched(Run(s, rs[..4]), w, persona, other);
    HeldMeansStands(s, rs, AiMark, AiSignature(Voice(other)));
  }

  lemma VoiceSwitched(s: Store, w: World, persona: string, other: string)
    requires VoiceTested(s, persona) && AiStored(s) && CanComplete(s, w) && Equipped(w) && persona != other
    ensures var t := After(After(After(s, Complete(w)), Outside(DEFAULT_STATION_NAME, MONITOR, Voice(other))), Complete(w));
            Completed(t, w) && t.ai == Voice(other) && Held(t, AiMark) == Some(AiSignature(Voice(persona)))
  {
    var u := After(After(s, Complete(w)), Outside(DEFAULT_STATION_NAME, MONITOR, Voice(other)));
    VoiceReplaced(s, w, persona, other);
    VoiceCompletes(u, w, other);
    EffectHolds(u, Complete(w), AiMark);
  }

  lemma VoiceReplaced(s: Store, w: World, persona: string, other: string)
    requires VoiceTested(s, persona) && AiStored(s) && CanComplete(s, w)
    ensures var u := After(After(s, Complete(w)), Outside(DEFAULT_STATION_NAME, MONITOR, Voice(other)));
            VoiceTested(u, other) && u.completed && Held(u, AiMark) == Some(AiSignature(Voice(persona)))
  {}

  // ---- Resets -------------------------------------------------------------------------------

  /** `_station_row`: where a request with this id goes, a reset apart. */
  function ResolvedStation(stations: seq<int>, active: Option<int>, id: int): int
    requires stations != []
  {
    if id in stations then id else Or(active, stations[0])
  }

  /** A reset takes the certificate back exactly when it names the station, and when it does not it
      changes nothing: an id of no station reaches the active station by every other request only. */
  lemma ResetRevokesExactly(s: Store, id: int, stations: seq<int>, w: World)
    requires s.station in stations
    ensures Held(After(s, Reset(id)), CertificateMark).None? <==> id == s.station || Held(s, CertificateMark).None?
    ensures Completed(After(s, Reset(id)), w) <==> id != s.station && Completed(s, w)
    ensures id !in stations ==> ResolvedStation(stations, Some(s.station), id) == s.station && After(s, Reset(id)) == s
    ensures id in stations ==> forall active :: ResolvedStation(stations, active, id) == id
    ensures id !in stations ==> ResolvedStation(stations, None, id) == stations[0]
  {}

  /** A run that certifies a station and resets without naming it: it shows as completed. */
  lemma CertifiedAfterUnnamedReset(s: Store, w: World, persona: string)
    requires Untouched(s) && Equipped(w) && s.station != 0
    ensures Completed(Run(s, VoiceRun(w, persona) + [Reset(0)]), w)
  {
    var rs := VoiceRun(w, persona) + [Reset(0)];
    assert rs[..4] == VoiceRun(w, persona)[..4] && rs[..6] == rs;
    VoiceVerified(s, w, persona);
    RunKeepsStation(s, rs[..4]);
    VoiceReset(Run(s, rs[..4]), w, persona);
    RunSnoc(s, rs, 5);
    RunSnoc(s, rs, 6);
  }

  lemma VoiceReset(s: Store, w: World, persona: string)
    requires VoiceTested(s, persona) && Equipped(w) && AiStored(s) && s.station != 0
    ensures Completed(After(After(s, Complete(w)), Reset(0)), w)
  {
    VoiceCompletes(s, w, persona);
    StationKept(s, Complete(w));
    assert After(After(s, Complete(w)), Reset(0)) == After(s, Complete(w));
  }

  lemma StationKept(s: Store, r: Request)
    ensures After(s, r).station == s.station
  {
    match r {
      case Complete(w) => assert CanComplete(s, w) || After(s, r) == s;
      case Verify(c, w, _) => assert Admitted(s, c, w) || After(s, r) == s;
      case _ =>
    }
  }

  lemma {:induction false} RunKeepsStation(s: Store, rs: seq<Request>)
    ensures Run(s, rs).station == s.station
  {
    if rs != [] {
      RunKeepsStation(s, rs[..|rs| - 1]);
      StationKept(Run(s, rs[..|rs| - 1]), rs[|rs| - 1]);
    }
  }

  lemma RunSnoc(s: Store, rs: seq<Request>, i: nat)
    requires 0 < i <= |rs|
    ensures Run(s, rs[..i]) == After(Run(s, rs[..i - 1]), rs[i - 1])
  {
    assert rs[..i][..i - 1] == rs[..i - 1];
  }

  lemma StationNameFits()
    ensures PyText.Strip(DEFAULT_STATION_NAME) != ""
  {}

  /** A completion that is admitted shows as completed in its own answer. */
  lemma CompletionHolds(s: Store, w: World)
    requires CanComplete(s, w)
    ensures Completed(After(s, Complete(w)), w)
  {
    var u := After(s, Complete(w));
    assert Required(u) == Required(s) && StartupOf(u, w) == StartupOf(s, w);
    forall c | c in Required(u) ensures Ready(u, w, c) {
      assert Ready(s, w, c);
    }
  }

  // ---- The stored settings ------------------------------------------------------------------

  /** The settings rows of the station; each upsert rewrites the rows it names. */
  class Setup {
    var stored: Store

    constructor (station: int, name: string, output: Output, ai: AiSettings)
      ensures stored.station == station && stored.name == name && stored.output == output && stored.ai == ai
      ensures Untouched(stored)
    {
      stored := Store(station, name, output, ai, false, false, None, false, None, false, false, None, false, false, None);
    }

    method PersistConfig(name: string, o: Output, aiEnabled: bool, persona: string, warmth: string, modelPath: string)
      returns (outcome: Outcome)
      modifies this
      ensures stored == After(old(stored), Configure(name, o, aiEnabled, persona, warmth, modelPath))
      ensures outcome == if o.localEnabled || o.icecastEnabled then Done else BadRequest
      ensures outcome == Done ==> forall m :: Held(stored, m) == None
      ensures outcome == BadRequest ==> stored == old(stored)
    {
      if !o.localEnabled && !o.icecastEnabled {
        return BadRequest;
      }
      stored := stored.(name := if name == "" then DEFAULT_STATION_NAME else name);
      stored := stored.(output := o);
      stored := stored.(
        ai := AiSettings(Some(if aiEnabled then ON else OFF), DEFAULT_AI_LLM_MODEL, DEFAULT_AI_TTS_PROVIDER,
                         modelPath, persona, DEFAULT_AI_STACK, warmth),
        completed := false, localVerified := false, streamVerified := false, streamTestPassed := false,
        aiVerified := false, aiTestPassed := false);
      return Done;
    }

    /** A test, passed or not, takes back the AI mark and the certificate until both are earned again. */
    method RecordAiTest(ok: bool)
      modifies this
      ensures stored == After(old(stored), TestAi(ok))
      ensures Held(stored, AiMark) == None && Held(stored, CertificateMark) == None
      ensures forall w :: !Completed(stored, w)
      ensures forall w :: AiEnabled(stored) && Ready(stored, w, AiTts) ==> LiveAiVoice(stored, w)
    {
      stored := stored.(aiTestPassed := ok, aiVerified := false, completed := false);
    }

    method VerifyCheck(check: Check, world: World, testOk: bool) returns (outcome: Outcome)
      modifies this
      ensures stored == After(old(stored), Verify(check, world, testOk))
      ensures outcome == BadRequest <==> check !in {LocalOutput, StreamOutput, AiTts}
      ensures outcome == Done <==> VerifiesIt(old(stored), Verify(check, world, testOk)) && (check == StreamOutput ==> testOk)
    {
      if !Verifiable(check) {
        return BadRequest;
      }
      var shown := stored;
      if check == LocalOutput && !shown.output.localEnabled {
        return Conflict;
      }
      if check == StreamOutput && (!StreamConfigured(shown.output) || !world.streamReachable) {
        return Conflict;
      }
      if check == StreamOutput {
        stored := stored.(streamTestPassed := testOk, completed := false, certified := false, certificate := None);
        if !testOk {
          return Conflict;
        }
      }
      if check == AiTts && (!AiRuntimeReady(shown, world) || !AiTested(shown, world)) {
        return Conflict;
      }
      if check == LocalOutput {
        stored := stored.(localVerified := true, localSignature := Some(LocalSignature(shown.output)));
      } else if check == StreamOutput {
        stored := stored.(streamVerified := true, streamSignature := Some(StreamSignature(shown.output)));
      } else {
        stored := stored.(aiVerified := true, aiSignature := Some(AiSignature(shown.ai)));
      }
      stored := stored.(completed := false, certified := false, certificate := None);
      return Done;
    }

    method CompleteSetup(world: World) returns (outcome: Outcome)
      modifies this
      ensures stored == After(old(stored), Complete(world))
      ensures outcome == Done <==> ChecksPass(old(stored), world)
      ensures outcome == Done ==> Completed(stored, world)
    {
      ChecksExactly(stored, world);
      var ready := IsReady(stored, world);
      if !ready {
        return Conflict;
      }
      CompletionHolds(stored, world);
      stored := stored.(completed := true, certified := true, certificate := Some(DeploymentSignature(stored, world)));
      return Done;
    }

    method ResetSetup(id: int)
      modifies this
      ensures stored == After(old(stored), Reset(id))
      ensures if id == old(stored).station then Untouched(stored) else stored == old(stored)
    {
      if id == stored.station {
        stored := stored.(
          completed := false, localVerified := false, streamVerified := false, streamTestPassed := false,
          aiVerified := false, aiTestPassed := false, certified := false, certificate := None);
      }
    }
  }

  /** The readiness loop over the ten checks. */
  method IsReady(s: Store, world: World) returns (ready: bool)
    ensures ready <==> CanComplete(s, world)
  {
    var checks := [Backend, MediaRuntime, WebView2, Station, LocalOutput, StreamOutput,
                   Ollama, LocalTtsRuntime, AiTts, StartupAiBuffer];
    var readyNames: set<Check> := {};
    for i := 0 to |checks|
      invariant forall c :: c in readyNames <==> c in checks[..i] && Ready(s, world, c)
    {
      assert checks[..i + 1] == checks[..i] + [checks[i]];
      if Ready(s, world, checks[i]) {
        readyNames := readyNames + {checks[i]};
      }
    }
    assert checks[..|checks|] == checks;
    ready := Required(s) <= readyNames;
  }
}
