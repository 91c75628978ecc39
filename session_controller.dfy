/**
 * The session controller: it owns at most one live recognition session, starts and stops
 * it, and handles the session's three callbacks (result, error, end). The callbacks arrive
 * whenever the environment delivers them, so every transition may follow any other.
 *
 * The state is described twice: as a value (`Snapshot`) with one pure transition function
 * per operation, and as the class `SessionController` whose methods update its fields in
 * place and are proved to perform exactly those transitions.
 */
module Session {
  import opened Wrappers
  import opened ErrorClassifier
  import opened TranscriptAccumulator

  /** The identity of one recognition session; the controller never reuses one. */
  type SessionId = nat

  /** The controller's whole state. */
  datatype Snapshot = Snapshot(
    handle: Option<SessionId>,   // the live session, if any
    isRecording: bool,           // what the toggle button shows
    transcript: string,          // the displayed transcript
    finalized: string,           // the finalized text the result handler appends to
    error: Option<string>,       // the message shown to the user, if any
    apiAvailable: bool,          // whether the host offers speech recognition
    nextId: SessionId)           // the identity the next session will get

  /**
   * The invariant every transition keeps: the button shows recording exactly when a
   * session is live, the live session's identity has been handed out, and the finalized
   * text is a prefix of the displayed transcript.
   */
  predicate Consistent(s: Snapshot) {
    (s.isRecording <==> s.handle.Some?) &&
    (s.handle.Some? ==> s.handle.value < s.nextId) &&
    s.finalized <= s.transcript
  }

  /** The state when the component is first shown. */
  function Initial(apiAvailable: bool): (r: Snapshot)
    ensures Consistent(r) && !r.isRecording && r.apiAvailable == apiAvailable
  {
    Snapshot(None, false, "", "", None, apiAvailable, 0)
  }

  /** startRecording: without the capability only an error is shown; otherwise a new session begins. */
  function Started(s: Snapshot): (r: Snapshot)
    ensures Consistent(s) ==> Consistent(r)
  {
    if !s.apiAvailable then
      s.(error := Some(UnsupportedMessage))
    else
      s.(error := None, finalized := s.transcript, handle := Some(s.nextId),
         nextId := s.nextId + 1, isRecording := true)
  }

  /** stopRecording: drop the live session, if any, and show not-recording. */
  function Stopped(s: Snapshot): (r: Snapshot)
    ensures Consistent(s) ==> Consistent(r)
  {
    s.(handle := None, isRecording := false)
  }

  /** The end callback of session `sid`: it takes effect only if `sid` is still the live session. */
  function Ended(s: Snapshot, sid: SessionId): (r: Snapshot)
    ensures Consistent(s) ==> Consistent(r)
  {
    if s.handle == Some(sid) then s.(handle := None, isRecording := false) else s
  }

  /** The result callback; it does not check which session the event came from. */
  function AfterResult(s: Snapshot, e: ResultEvent): (r: Snapshot)
    ensures Consistent(s) ==> Consistent(r)
  {
    var o := Apply(s.finalized, e);
    s.(finalized := o.finalized, transcript := o.displayed)
  }

  /** The error callback; it does not check which session the event came from. */
  function AfterError(s: Snapshot, code: string, isSecure: bool): (r: Snapshot)
    ensures Consistent(s) ==> Consistent(r)
  {
    match Classify(code, isSecure)
    case None => s
    case Some(m) => s.(error := Some(m))
  }

  /** toggleRecording: stop when recording, start otherwise. */
  function Toggled(s: Snapshot): (r: Snapshot)
    ensures Consistent(s) ==> Consistent(r)
  {
    if s.isRecording then Stopped(s) else Started(s)
  }

  /** What the environment may do next: a user action, the unmount teardown, or a callback. */
  datatype Action =
    | Start
    | Stop
    | Toggle
    | Teardown
    | Result(sid: SessionId, event: ResultEvent)
    | Error(sid: SessionId, code: string, isSecure: bool)
    | End(sid: SessionId)

  function Step(s: Snapshot, a: Action): (r: Snapshot)
    ensures Consistent(s) ==> Consistent(r)
    ensures r.apiAvailable == s.apiAvailable
    ensures s.nextId <= r.nextId
  {
    match a
    case Start => Started(s)
    case Stop => Stopped(s)
    case Toggle => Toggled(s)
    case Teardown => Stopped(s)
    case Result(_, e) => AfterResult(s, e)
    case Error(_, code, isSecure) => AfterError(s, code, isSecure)
    case End(sid) => Ended(s, sid)
  }

  /** The state after the environment performs `actions` in order. */
  function Run(s: Snapshot, actions: seq<Action>): (r: Snapshot)
    decreases actions
  {
    if actions == [] then s else Run(Step(s, actions[0]), actions[1..])
  }

  // ---------------------------------------------------------------------------
  // Properties of the transitions

  /** Stopping twice is stopping once. */
  lemma StopIdempotent(s: Snapshot)
    ensures Stopped(Stopped(s)) == Stopped(s)
    ensures !Stopped(s).isRecording && Stopped(s).handle == None
  {
  }

  /** Without the capability, start shows the unsupported message and changes nothing else. */
  lemma StartWithoutCapability(s: Snapshot)
    requires !s.apiAvailable
    ensures Started(s) == s.(error := Some(UnsupportedMessage))
  {
  }

  /**
   * With the capability, start clears the error, seeds the finalized text from the displayed
   * transcript, stores an identity never handed out before, and shows recording.
   */
  lemma StartWithCapability(s: Snapshot)
    requires Consistent(s) && s.apiAvailable
    ensures var r := Started(s);
            r.error == None && r.finalized == s.transcript && r.transcript == s.transcript &&
            r.isRecording &&
            r.handle == Some(s.nextId) && r.nextId > s.nextId &&
            (s.handle.Some? ==> r.handle != s.handle)
  {
  }

  /** Stop then start keeps the text shown before the stop as the new finalized text. */
  lemma RestartPreservesTranscript(s: Snapshot)
    requires s.apiAvailable
    ensures Started(Stopped(s)).finalized == s.transcript
    ensures Started(Stopped(s)).transcript == s.transcript
  {
  }

  /** The end of a session that is not the live one changes nothing. */
  lemma StaleEndIgnored(s: Snapshot, sid: SessionId)
    requires s.handle != Some(sid)
    ensures Ended(s, sid) == s
  {
  }

  /** The end of the live session stops recording. */
  lemma LiveEndStops(s: Snapshot, sid: SessionId)
    requires s.handle == Some(sid)
    ensures Ended(s, sid) == Stopped(s)
  {
  }

  /**
   * The race the identity guard exists for: after a stop and an immediate restart, the old
   * session's late end leaves the new session live.
   */
  lemma LateEndAfterRestart(s: Snapshot, stale: SessionId)
    requires Consistent(s) && s.handle == Some(stale) && s.apiAvailable
    ensures var r := Started(Stopped(s));
            Ended(r, stale) == r && r.isRecording && r.handle.Some?
  {
  }

  /** A start ignores the end of every session started before it, not only the last one. */
  lemma EarlierSessionEndIgnored(s: Snapshot, stale: SessionId)
    requires Consistent(s) && s.apiAvailable && stale < s.nextId
    ensures Ended(Started(s), stale) == Started(s)
  {
  }

  /** The identity counter never goes down, so identities are handed out at most once. */
  lemma {:induction false} RunNextIdGrows(s: Snapshot, actions: seq<Action>)
    ensures s.nextId <= Run(s, actions).nextId
    decreases actions
  {
    if actions != [] {
      RunNextIdGrows(Step(s, actions[0]), actions[1..]);
    }
  }

  /**
   * Once a session has been replaced or stopped, it never becomes the stored one again,
   * whatever the environment does next, so its late end is ignored at any later time.
   */
  lemma {:induction false} RetiredIdNeverReturns(s: Snapshot, actions: seq<Action>, stale: SessionId)
    requires stale < s.nextId && s.handle != Some(stale)
    ensures Run(s, actions).handle != Some(stale)
    ensures Ended(Run(s, actions), stale) == Run(s, actions)
    decreases actions
  {
    if actions != [] {
      var t := Step(s, actions[0]);
      assert t.nextId >= s.nextId;
      RetiredIdNeverReturns(t, actions[1..], stale);
    }
  }

  /** Toggling shows recording afterwards exactly when it was not recording and the capability exists. */
  lemma ToggleFlips(s: Snapshot)
    requires Consistent(s)
    ensures Toggled(s).isRecording <==> !s.isRecording && s.apiAvailable
  {
  }

  /**
   * As written, the result handler is not guarded: a superseded session's late final text
   * is appended to the text the new session has just seeded.
   */
  lemma StaleResultAppendsToNewSession(s: Snapshot, stale: SessionId, e: ResultEvent)
    requires Consistent(s) && s.handle == Some(stale) && s.apiAvailable
    ensures var r := Started(Stopped(s));
            r.handle != Some(stale) &&
            Step(r, Result(stale, e)).finalized == s.transcript + Joined(Visited(e), true)
  {
  }

  /** Any classified error replaces the previous message; a benign code keeps it. */
  lemma ErrorLastWriteWins(s: Snapshot, code: string, isSecure: bool)
    ensures IsBenign(code) ==> AfterError(s, code, isSecure) == s
    ensures !IsBenign(code) ==>
              AfterError(s, code, isSecure) == s.(error := Classify(code, isSecure))
  {
  }

  /** Every run of the environment keeps the invariant. */
  lemma {:induction false} RunKeepsConsistent(s: Snapshot, actions: seq<Action>)
    requires Consistent(s)
    ensures Consistent(Run(s, actions))
    decreases actions
  {
    if actions != [] {
      RunKeepsConsistent(Step(s, actions[0]), actions[1..]);
    }
  }

  /**
   * The finalized text is append-only over every run, restarts included: a start seeds it
   * from the displayed transcript, of which it is already a prefix.
   */
  lemma {:induction false} RunOnlyAppends(s: Snapshot, actions: seq<Action>)
    requires Consistent(s)
    ensures s.finalized <= Run(s, actions).finalized
    decreases actions
  {
    if actions != [] {
      var t := Step(s, actions[0]);
      assert s.finalized <= t.finalized;
      RunOnlyAppends(t, actions[1..]);
      PrefixTransitive(s.finalized, t.finalized, Run(t, actions[1..]).finalized);
    }
  }

  lemma PrefixTransitive(a: string, b: string, c: string)
    requires a <= b && b <= c
    ensures a <= c
  {
    assert c[..|a|] == b[..|a|];
  }

  /** Without the capability, no run ever starts recording or stores a session. */
  lemma {:induction false} NoCapabilityNeverRecords(s: Snapshot, actions: seq<Action>)
    requires Consistent(s) && !s.apiAvailable && !s.isRecording
    ensures !Run(s, actions).isRecording && Run(s, actions).handle == None
    decreases actions
  {
    if actions != [] {
      NoCapabilityNeverRecords(Step(s, actions[0]), actions[1..]);
    }
  }

  // ---------------------------------------------------------------------------
  // The controller object

  class SessionController {
    var handle: Option<SessionId>
    var isRecording: bool
    var transcript: string
    var finalized: string
    var error: Option<string>
    const apiAvailable: bool
    var nextId: SessionId

    function State(): (r: Snapshot)
      reads this
    {
      Snapshot(handle, isRecording, transcript, finalized, error, apiAvailable, nextId)
    }

    ghost predicate Valid()
      reads this
    {
      Consistent(State())
    }

    /** The component's first render; `apiAvailable` is the result of probing the host. */
    constructor (apiAvailable: bool)
      ensures Valid() && State() == Initial(apiAvailable)
    {
      handle := None;
      isRecording := false;
      transcript := "";
      finalized := "";
      error := None;
      this.apiAvailable := apiAvailable;
      nextId := 0;
    }

    method Start()
      requires Valid()
      modifies this
      ensures Valid() && State() == Started(old(State()))
    {
      if !apiAvailable {
        error := Some(UnsupportedMessage);
        return;
      }
      error := None;
      finalized := transcript;
      var sid := nextId;
      nextId := nextId + 1;
      handle := Some(sid);
      isRecording := true;
    }

    method Stop()
      requires Valid()
      modifies this
      ensures Valid() && State() == Stopped(old(State()))
    {
      if handle.Some? {
        handle := None;
      }
      isRecording := false;
    }

    method Toggle()
      requires Valid()
      modifies this
      ensures Valid() && State() == Toggled(old(State()))
    {
      if isRecording {
        Stop();
      } else {
        Start();
      }
    }

    /** The unmount teardown releases the session by stopping. */
    method Teardown()
      requires Valid()
      modifies this
      ensures Valid() && State() == Stopped(old(State()))
    {
      Stop();
    }

    /** The result callback of session `sid` (which it does not compare with the live one). */
    method OnResult(sid: SessionId, e: ResultEvent)
      requires Valid()
      modifies this
      ensures Valid() && State() == AfterResult(old(State()), e)
    {
      var newFinalized, displayed := Accumulate(finalized, e);
      finalized := newFinalized;
      transcript := displayed;
    }

    /** The error callback of session `sid` (which it does not compare with the live one). */
    method OnError(sid: SessionId, code: string, isSecure: bool)
      requires Valid()
      modifies this
      ensures Valid() && State() == AfterError(old(State()), code, isSecure)
    {
      var message := Classify(code, isSecure);
      if message.Some? {
        error := message;
      }
    }

    /** The end callback of session `sid`, guarded by the identity check. */
    method OnEnd(sid: SessionId)
      requires Valid()
      modifies this
      ensures Valid() && State() == Ended(old(State()), sid)
    {
      if handle == Some(sid) {
        handle := None;
        isRecording := false;
      }
    }
  }

  /**
   * A client run: start, hear a final "你好", stop, start again, and receive the first
   * session's late end. The new session stays live and keeps the earlier text.
   */
  method RestartScenario() returns (c: SessionController)
    ensures c.isRecording && c.handle == Some(1)
    ensures c.finalized == "你好" && c.transcript == "你好" && c.error == None
  {
    c := new SessionController(true);
    c.Start();
    var first := c.handle.value;
    var e := ResultEvent(0, [Slot(true, "你好")]);
    assert Visited(e) == [] + [Slot(true, "你好")];
    JoinedSnoc([], Slot(true, "你好"), true);
    JoinedSnoc([], Slot(true, "你好"), false);
    c.OnResult(first, e);
    c.Stop();
    c.Start();
    c.OnEnd(first);
  }
}
