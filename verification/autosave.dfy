/** The auto-save switch of `ScriptableSFXManagerEditor`: the
    `_subscribedToEvent` flag guards the manager's `_onInspectorChange`
    event so that the editor registers its `GenerateCsClass` listener at
    most once.

    The event field is private, not serialized and never assigned in the
    manager, so it may be `null`; `OnValidate` invokes it through `?.`, but
    the editor calls `AddListener` and `RemoveListener` on it directly,
    after it has already flipped its flag. Both cases are modelled. */
module AutoSave {
  import opened Outcomes

  /** One editor instance: its flag, whether the manager's event object
      exists, how many of this editor's `GenerateCsClass` listeners the
      event holds, and how many times `GenerateCsClass` has been called
      (an attempt may itself throw, see `EditorCodegen.Declarations`). */
  datatype Editor = Editor(subscribed: bool, eventAssigned: bool, listeners: nat, attempts: nat)

  /** The editor after a call, and whether the call threw. */
  datatype EditorStep = EditorStep(next: Editor, result: Result<()>)

  /** The flag tells the truth about the event: exactly one listener while
      subscribed to an existing event, none otherwise. */
  predicate Consistent(e: Editor) {
    e.listeners == if e.subscribed && e.eventAssigned then 1 else 0
  }

  /** `EnableAutoSave`: when not yet subscribed, set the flag, then add the
      listener and generate once; with no event object, `AddListener`
      throws after the flag is set, so nothing is added or generated.
      `generated` is the outcome of that direct `GenerateCsClass` call
      (`EditorCodegen.GenerateCsClass` says when it throws), and it is what
      the enable reports, since the exception is not caught. */
  function EnableAutoSave(e: Editor, generated: Result<()>): (s: EditorStep)
    ensures s.next.subscribed && s.next.eventAssigned == e.eventAssigned
    ensures e.subscribed ==> s == EditorStep(e, Success(()))
    ensures !e.subscribed && e.eventAssigned ==>
      s.result == generated && s.next.listeners == e.listeners + 1 && s.next.attempts == e.attempts + 1
    ensures !e.subscribed && !e.eventAssigned ==>
      s.result == Failure(NullReference) && s.next.listeners == e.listeners && s.next.attempts == e.attempts
  {
    if e.subscribed then EditorStep(e, Success(()))
    else if !e.eventAssigned then EditorStep(e.(subscribed := true), Failure(NullReference))
    else EditorStep(e.(subscribed := true, listeners := e.listeners + 1, attempts := e.attempts + 1), generated)
  }

  /** `DisableAutoSave`: when subscribed, clear the flag, then remove the
      listener (`RemoveListener` drops every registration of the same
      method, and does nothing when there is none); with no event object,
      the removal throws after the flag is cleared. */
  function DisableAutoSave(e: Editor): (s: EditorStep)
    ensures !s.next.subscribed && s.next.eventAssigned == e.eventAssigned && s.next.attempts == e.attempts
    ensures !e.subscribed ==> s == EditorStep(e, Success(()))
    ensures e.subscribed && e.eventAssigned ==>
      s.result.Success? && s.next.listeners == 0
    ensures e.subscribed && !e.eventAssigned ==>
      s.result == Failure(NullReference) && s.next.listeners == e.listeners
  {
    if !e.subscribed then EditorStep(e, Success(()))
    else if !e.eventAssigned then EditorStep(e.(subscribed := false), Failure(NullReference))
    else EditorStep(e.(subscribed := false, listeners := 0), Success(()))
  }

  /** The auto-save part of one `OnInspectorGUI` pass, given the
      serialized `_generateCsClass` and `_autoSave` values: with class
      generation on, the flag ends up equal to the toggle, and a consistent
      editor stays consistent, whether or not the call threw. `generated`
      is the outcome a `GenerateCsClass` call would have. */
  function InspectorPass(e: Editor, generateCsClass: bool, autoSave: bool, generated: Result<()>): (s: EditorStep)
    ensures !generateCsClass ==> s == EditorStep(e, Success(()))
    ensures generateCsClass ==> s.next.subscribed == autoSave
    ensures generateCsClass && autoSave && !e.subscribed && e.eventAssigned ==>
      s.result == generated && s.next.attempts == e.attempts + 1
    ensures s.result.Failure? ==> s.result == generated || s.result == Failure(NullReference)
    ensures s.next.eventAssigned == e.eventAssigned
    ensures Consistent(e) ==> Consistent(s.next)
  {
    if !generateCsClass then EditorStep(e, Success(()))
    else if autoSave then EnableAutoSave(e, generated)
    else DisableAutoSave(e)
  }

  /** The manager's `OnValidate` invoking `_onInspectorChange?.Invoke()`:
      every registered listener generates once; without an event object
      nothing happens. */
  function InspectorChange(e: Editor): (e': Editor)
    ensures e'.subscribed == e.subscribed && e'.eventAssigned == e.eventAssigned && e'.listeners == e.listeners
    ensures e'.attempts == e.attempts + (if e.eventAssigned then e.listeners else 0)
  {
    if e.eventAssigned then e.(attempts := e.attempts + e.listeners) else e
  }

  lemma EnableIdempotent(e: Editor, first: Result<()>, second: Result<()>)
    ensures EnableAutoSave(EnableAutoSave(e, first).next, second) == EditorStep(EnableAutoSave(e, first).next, Success(()))
  {
  }

  lemma DisableIdempotent(e: Editor)
    ensures DisableAutoSave(DisableAutoSave(e).next) == EditorStep(DisableAutoSave(e).next, Success(()))
  {
  }

  /** With an event object, toggling off and on again leaves exactly one
      listener and costs one more generation. */
  lemma ReenableRegistersOnce(e: Editor, generated: Result<()>)
    requires Consistent(e) && e.eventAssigned
    ensures var e' := EnableAutoSave(DisableAutoSave(e).next, generated).next;
      Consistent(e') && e'.listeners == 1 && e'.attempts == e.attempts + 1
  {
  }

  /** What one step of the editor's life can be; a pass carries the
      outcome its `GenerateCsClass` call would have. */
  datatype Event = Pass(generateCsClass: bool, autoSave: bool, generated: Result<()>) | Change

  /** The editor after one event; an exception thrown by a pass ends that
      pass but leaves its state changes in place. */
  function Apply(e: Editor, ev: Event): Editor
  {
    match ev
    case Pass(g, a, generated) => InspectorPass(e, g, a, generated).next
    case Change => InspectorChange(e)
  }

  function Run(e: Editor, events: seq<Event>): Editor
    decreases |events|
  {
    if |events| == 0 then e else Run(Apply(e, events[0]), events[1..])
  }

  /** The guard's purpose: however the inspector is redrawn and the
      toggles flipped, the flag agrees with the event, so the event never
      holds more than one of the editor's listeners. */
  lemma {:induction false} RunKeepsConsistent(e: Editor, events: seq<Event>)
    requires Consistent(e)
    ensures Consistent(Run(e, events))
    ensures Run(e, events).listeners <= 1
    decreases |events|
  {
    if |events| > 0 {
      var e1 := Apply(e, events[0]);
      assert Consistent(e1);
      RunKeepsConsistent(e1, events[1..]);
    }
  }

  /** Generations come from enabling and from changes, so a run of
      `events` generates at most once per event. */
  lemma {:induction false} RunSavesBounded(e: Editor, events: seq<Event>)
    requires Consistent(e)
    ensures e.attempts <= Run(e, events).attempts <= e.attempts + |events|
    decreases |events|
  {
    if |events| > 0 {
      var e1 := Apply(e, events[0]);
      assert Consistent(e1) && e.attempts <= e1.attempts <= e.attempts + 1;
      RunSavesBounded(e1, events[1..]);
    }
  }

  /** Without an event object auto-save never generates: every enable
      throws in `AddListener`, before its `GenerateCsClass` call, and the
      flag it has already set keeps the next passes from even trying. */
  lemma {:induction false} UnassignedEventNeverGenerates(e: Editor, events: seq<Event>)
    requires !e.eventAssigned
    ensures Run(e, events).attempts == e.attempts
    ensures !Run(e, events).eventAssigned
    decreases |events|
  {
    if |events| > 0 {
      var e1 := Apply(e, events[0]);
      assert !e1.eventAssigned && e1.attempts == e.attempts;
      UnassignedEventNeverGenerates(e1, events[1..]);
    }
  }
}
