/** The presentation side of the assistant that carries logic: the popup gate
    run on every scene update, and the suggestion operator, whose `draw`
    derives what to do from its snapshot of the suggestion and whose `execute`
    records the user's answer and runs the rule's action directives.

    Blender's operator registry is the map `ops` from operator namespace to
    the operator names in it; opening a URL or invoking an operator is an
    `Effect` appended to a log. */
module AssistantUi {
  import opened PyStr
  import opened AssistantTools

  const SuggestionFormUrl := "https://forms.gle/5KPyzQynnXWVbKzC6"

  // ---------------------------------------------------------------------------
  // Popup gate
  // ---------------------------------------------------------------------------

  /** When `scene_update_handler` pops the suggestion up. */
  predicate ShouldShowPopup(s: Option<Rule>, passive: bool, dismissed: map<string, bool>,
                            previousPopup: Option<string>, uiLastCheck: int, now: int)
  {
    && s.Some?
    && !passive
    && s.value.id !in dismissed
    && previousPopup != Some(s.value.id)
    && now >= ScenePopupInterval + uiLastCheck
  }

  /** `scene_update_handler`: returns early on each guard in turn; on showing,
      records the time and the id shown. `passive` is the add-on preference. */
  method SceneUpdateHandler(tools: AssistantState, passive: bool, now: int) returns (shown: bool)
    modifies tools`uiLastCheck, tools`previousPopup
    ensures shown == ShouldShowPopup(tools.suggestion, passive, tools.dismissed,
                                     old(tools.previousPopup), old(tools.uiLastCheck), now)
    ensures shown ==> tools.uiLastCheck == now && tools.previousPopup == Some(tools.suggestion.value.id)
    ensures !shown ==> tools.uiLastCheck == old(tools.uiLastCheck) && tools.previousPopup == old(tools.previousPopup)
  {
    if tools.suggestion == None {
      return false;
    }
    if passive {
      return false;
    }
    var id := tools.suggestion.value.id;
    if id in tools.dismissed {
      return false;
    }
    if tools.previousPopup == Some(id) {
      return false;  // this id was the last one popped up
    }
    if now < ScenePopupInterval + tools.uiLastCheck {
      return false;  // SCENE_POPUP_INTERVAL has not passed since the last popup
    }
    tools.uiLastCheck := now;
    tools.previousPopup := Some(id);
    shown := true;
  }

  /** Two gate calls in a row with the same suggestion never both show it, and
      a show is never followed by another within SCENE_POPUP_INTERVAL. */
  method ConsecutiveGateCalls(tools: AssistantState, passive1: bool, now1: int, passive2: bool, now2: int)
    returns (first: bool, second: bool)
    modifies tools`uiLastCheck, tools`previousPopup
    ensures !(first && second)
    ensures first && now2 < now1 + ScenePopupInterval ==> !second
  {
    first := SceneUpdateHandler(tools, passive1, now1);
    second := SceneUpdateHandler(tools, passive2, now2);
  }

  // ---------------------------------------------------------------------------
  // Action directives
  // ---------------------------------------------------------------------------

  datatype Effect = OpenUrl(url: string) | InvokeOperator(namespace: string, name: string)

  /** The state the directive loop of `execute` works on: what it has done,
      LAST_CHECK and UI_LAST_CHECK, and whether an exception ended it. */
  datatype Dispatch = Dispatch(effects: seq<Effect>, lastCheck: int, uiLastCheck: int, aborted: bool)

  /** Python truthiness of an optional string: set and non-empty. */
  predicate IsSet(s: Option<string>)
  {
    s.Some? && s.value != ""
  }

  /** The characters before an `ops:` prefix's dot cannot be a dot, so a dot in
      the directive lies in its operator path. */
  lemma DotInOperatorPath(act: string)
    requires HasPrefix(Lower(act), "ops:") && '.' in act
    ensures '.' in act[4..]
  {
    forall j | 0 <= j < 4 ensures act[j] != '.' {
      assert LowerChar(act[j]) == Lower(act)[..4][j] == "ops:"[j];
    }
    var i :| 0 <= i < |act| && act[i] == '.';
    assert act[4..][i - 4] == '.';
  }

  /** One directive of an action string, as written: `url:` and `ops:` match in
      any case, `trigger_followup` only exactly; an `ops:` directive without a
      period or with an unknown namespace is skipped, one naming an unknown
      operator raises (its log line adds a string to a list). */
  function Step(d: Dispatch, act: string, ops: map<string, set<string>>): (r: Dispatch)
    ensures d.effects <= r.effects && |r.effects| <= |d.effects| + 1
    ensures d.aborted ==> r.aborted
    ensures !d.aborted && r.aborted ==> r == d.(aborted := true)
    ensures r.lastCheck != d.lastCheck ==> act == "trigger_followup"
    ensures r.uiLastCheck == d.uiLastCheck || r.uiLastCheck == r.lastCheck
  {
    if HasPrefix(Lower(act), "url:") then d.(effects := d.effects + [OpenUrl(act[4..])])
    else if HasPrefix(Lower(act), "ops:") then
      if '.' !in act then d
      else
        DotInOperatorPath(act);
        SplitAtCharacter(act[4..], '.');
        var atr := Split(act[4..], ".");
        if atr[0] !in ops then d
        else if atr[1] !in ops[atr[0]] then d.(aborted := true)
        else d.(effects := d.effects + [InvokeOperator(atr[0], atr[1])])
    else if act == "trigger_followup" then d.(lastCheck := d.lastCheck - 10, uiLastCheck := d.lastCheck - 10)
    else d
  }

  /** The directive loop from the start of `acts` on; an exception stops it. */
  function Run(d: Dispatch, acts: seq<string>, ops: map<string, set<string>>): (r: Dispatch)
    ensures d.effects <= r.effects && |r.effects| <= |d.effects| + |acts|
    ensures d.aborted ==> r == d
    decreases |acts|
  {
    if acts == [] || d.aborted then d else Run(Step(d, acts[0], ops), acts[1..], ops)
  }

  /** The directives of an action: none when the action is unset or empty,
      otherwise the action split on single spaces. */
  function Directives(action: Option<string>): (r: seq<string>)
    ensures IsSet(action) ==> |r| >= 1 && Join(r, " ") == action.value
    ensures !IsSet(action) ==> r == []
  {
    if IsSet(action) then
      JoinSplit(action.value, " ");
      Split(action.value, " ")
    else []
  }

  function FollowupCount(acts: seq<string>): nat
  {
    if acts == [] then 0 else (if acts[0] == "trigger_followup" then 1 else 0) + FollowupCount(acts[1..])
  }

  /** How many directives the loop takes up: all of them, unless one raises,
      which is then the last one taken up. */
  function Performed(d: Dispatch, acts: seq<string>, ops: map<string, set<string>>): (p: nat)
    ensures p <= |acts|
    ensures !d.aborted && !Run(d, acts, ops).aborted ==> p == |acts|
    ensures d.aborted ==> p == 0
    decreases |acts|
  {
    if acts == [] || d.aborted then 0 else 1 + Performed(Step(d, acts[0], ops), acts[1..], ops)
  }

  /** Each `trigger_followup` the loop reaches rewinds LAST_CHECK by ten
      seconds and sets UI_LAST_CHECK to it; nothing else touches either, and a
      raising directive stops the rewinds after it. */
  lemma {:induction false} FollowupsRewind(d: Dispatch, acts: seq<string>, ops: map<string, set<string>>)
    ensures var r := Run(d, acts, ops);
      var n := FollowupCount(acts[..Performed(d, acts, ops)]);
      r.lastCheck == d.lastCheck - 10 * n &&
      r.uiLastCheck == if n == 0 then d.uiLastCheck else r.lastCheck
    decreases |acts|
  {
    var p := Performed(d, acts, ops);
    if acts == [] || d.aborted {
      assert acts[..p] == [];
    } else {
      var n := Step(d, acts[0], ops);
      FollowupsRewind(n, acts[1..], ops);
      assert acts[..p] == [acts[0]] + acts[1..][..p - 1];
      assert ([acts[0]] + acts[1..][..p - 1])[1..] == acts[1..][..p - 1];
      if acts[0] == "trigger_followup" {
        assert !HasPrefix(Lower(acts[0]), "url:") by { assert Lower(acts[0])[0] == 't'; }
        assert !HasPrefix(Lower(acts[0]), "ops:") by { assert Lower(acts[0])[0] == 't'; }
      }
    }
  }

  /** A `trigger_followup` directive rewinds LAST_CHECK by ten seconds and
      sets UI_LAST_CHECK to the new value. */
  lemma FollowupStep(d: Dispatch, ops: map<string, set<string>>)
    ensures Step(d, "trigger_followup", ops) == d.(lastCheck := d.lastCheck - 10, uiLastCheck := d.lastCheck - 10)
  {
    assert Lower("trigger_followup")[0] == 't';
  }

  /** On a run that does not raise, every directive is taken up and every
      `trigger_followup` in the action rewinds the clocks. */
  lemma FollowupsRewindAll(d: Dispatch, acts: seq<string>, ops: map<string, set<string>>)
    requires !d.aborted && !Run(d, acts, ops).aborted
    ensures Run(d, acts, ops).lastCheck == d.lastCheck - 10 * FollowupCount(acts)
  {
    FollowupsRewind(d, acts, ops);
    assert acts[..|acts|] == acts;
  }

  /** A directive the loop passes over without effect: not a `url:` one, not
      exactly `trigger_followup`, and if an `ops:` one, then without a period or
      with a namespace Blender does not have. */
  predicate Inert(act: string, ops: map<string, set<string>>)
  {
    && !HasPrefix(Lower(act), "url:")
    && act != "trigger_followup"
    && (HasPrefix(Lower(act), "ops:") ==>
          '.' !in act ||
          exists k | 4 <= k < |act| :: act[k] == '.' && '.' !in act[4..k] && act[4..k] !in ops)
  }

  /** Inert directives are skipped and the directives after them still run. */
  lemma InertDirectiveSkipped(d: Dispatch, act: string, rest: seq<string>, ops: map<string, set<string>>)
    requires !d.aborted && Inert(act, ops)
    ensures Run(d, [act] + rest, ops) == Run(d, rest, ops)
  {
    if HasPrefix(Lower(act), "ops:") && '.' in act {
      var k :| 4 <= k < |act| && act[k] == '.' && '.' !in act[4..k] && act[4..k] !in ops;
      assert act[4..] == act[4..k] + ['.'] + act[k + 1..];
      SplitAfterPiece(act[4..k], ".", act[k + 1..]);
    }
    assert Step(d, act, ops) == d;
    assert ([act] + rest)[1..] == rest;
  }

  /** `url:` in any case opens the rest of the directive, original case kept. */
  lemma UrlDirective(d: Dispatch, prefix: string, url: string, rest: seq<string>, ops: map<string, set<string>>)
    requires !d.aborted && |prefix| == 4 && Lower(prefix) == "url:"
    ensures Run(d, [prefix + url] + rest, ops) ==
      Run(d.(effects := d.effects + [OpenUrl(url)]), rest, ops)
  {
    var act := prefix + url;
    assert Lower(act)[..4] == Lower(prefix);
    assert act[4..] == url;
    assert ([act] + rest)[1..] == rest;
  }

  /** `ops:<namespace>.<name>` of an existing operator invokes it and goes on. */
  lemma OperatorDirective(d: Dispatch, prefix: string, ns: string, name: string, tail: string,
                          rest: seq<string>, ops: map<string, set<string>>)
    requires !d.aborted && |prefix| == 4 && Lower(prefix) == "ops:"
    requires '.' !in ns && '.' !in name && (tail == [] || tail[0] == '.') && ns in ops && name in ops[ns]
    ensures Run(d, [prefix + ns + "." + name + tail] + rest, ops) ==
      Run(d.(effects := d.effects + [InvokeOperator(ns, name)]), rest, ops)
  {
    var act := prefix + ns + "." + name + tail;
    OperatorPath(d, prefix, ns, name, tail, ops);
    assert ([act] + rest)[1..] == rest;
  }

  /** As written, `ops:<namespace>.<name>` with a known namespace but an unknown
      operator raises, and no later directive runs. */
  lemma MissingOperatorAborts(d: Dispatch, prefix: string, ns: string, name: string, tail: string,
                              rest: seq<string>, ops: map<string, set<string>>)
    requires !d.aborted && |prefix| == 4 && Lower(prefix) == "ops:"
    requires '.' !in ns && '.' !in name && (tail == [] || tail[0] == '.') && ns in ops && name !in ops[ns]
    ensures Run(d, [prefix + ns + "." + name + tail] + rest, ops) == d.(aborted := true)
  {
    var act := prefix + ns + "." + name + tail;
    OperatorPath(d, prefix, ns, name, tail, ops);
    assert ([act] + rest)[1..] == rest;
  }

  /** How an `ops:` directive is read: the namespace up to the first period, the
      operator name up to the next; whatever follows a second period is ignored. */
  lemma OperatorPath(d: Dispatch, prefix: string, ns: string, name: string, tail: string,
                     ops: map<string, set<string>>)
    requires |prefix| == 4 && Lower(prefix) == "ops:" && '.' !in ns && '.' !in name
    requires tail == [] || tail[0] == '.'
    ensures var act := prefix + ns + "." + name + tail;
      Step(d, act, ops) ==
        if ns !in ops then d
        else if name !in ops[ns] then d.(aborted := true)
        else d.(effects := d.effects + [InvokeOperator(ns, name)])
  {
    var act := prefix + ns + "." + name + tail;
    assert Lower(act)[..4] == Lower(prefix);
    assert !HasPrefix(Lower(act), "url:") by { assert Lower(act)[0] == 'o'; }
    assert act[4 + |ns|] == '.';
    assert act[4..] == ns + ['.'] + (name + tail);
    SplitAfterPiece(ns, ".", name + tail);
    if tail == [] {
      assert name + tail == name;
      SplitWithoutCharacter(name, '.');
    } else {
      assert name + tail == name + ['.'] + tail[1..];
      SplitAfterPiece(name, ".", tail[1..]);
    }
  }

  /** A `trigger_followup` directive, then an `elapsed:10s` condition: the
      rewind makes the condition pass on the very next evaluation. */
  lemma FollowupThenElapsed(now: int, uiLastCheck: int, ops: map<string, set<string>>, f: Facts)
    ensures var r := Run(Dispatch([], now, uiLastCheck, false), ["trigger_followup"], ops);
      r.uiLastCheck == now - 10 &&
      Check("elapsed:" + Decimal(10) + "s", f.(uiLastCheck := r.uiLastCheck, now := now)) == Pass
  {
    var d := Dispatch([], now, uiLastCheck, false);
    var acts := ["trigger_followup"];
    assert Lower(acts[0])[0] == 't';
    FollowupsRewind(d, acts, ops);
    assert acts[..Performed(d, acts, ops)] == acts;
    assert FollowupCount(acts) == 1;
    ElapsedToken(10, 's', f.(uiLastCheck := now - 10, now := now));
  }

  // --- the ignored-TypeError finding ---------------------------------------

  /** The evidently intended step: an unknown operator is logged and skipped
      like the other invalid `ops:` directives. */
  function StepIntended(d: Dispatch, act: string, ops: map<string, set<string>>): (r: Dispatch)
    ensures r.aborted == d.aborted
    ensures !d.aborted ==>
      r.lastCheck == Step(d, act, ops).lastCheck && r.uiLastCheck == Step(d, act, ops).uiLastCheck
  {
    var n := Step(d, act, ops);
    if n.aborted then d else n
  }

  /** The intended directive loop: never raises, so every directive is reached. */
  function RunIntended(d: Dispatch, acts: seq<string>, ops: map<string, set<string>>): (r: Dispatch)
    ensures r.aborted == d.aborted
    ensures d.effects <= r.effects && |r.effects| <= |d.effects| + |acts|
    decreases |acts|
  {
    if acts == [] then d else RunIntended(StepIntended(d, acts[0], ops), acts[1..], ops)
  }

  /** Where the written loop does not raise, it does what the intended one does. */
  lemma {:induction false} IntendedAgrees(d: Dispatch, acts: seq<string>, ops: map<string, set<string>>)
    requires !d.aborted && !Run(d, acts, ops).aborted
    ensures RunIntended(d, acts, ops) == Run(d, acts, ops)
    decreases |acts|
  {
    if acts != [] {
      var n := Step(d, acts[0], ops);
      assert !n.aborted;
      IntendedAgrees(n, acts[1..], ops);
    }
  }

  /** The input that shows it: an unknown operator before a follow-up raises,
      and the follow-up never rewinds the clocks. */
  lemma MissingOperatorStopsFollowup(now: int, uiLastCheck: int)
    ensures var ops := map["object" := {}];
      var acts := ["ops:object.no_such_op", "trigger_followup"];
      var r := Run(Dispatch([], now, uiLastCheck, false), acts, ops);
      r.aborted && r.lastCheck == now && r.uiLastCheck == uiLastCheck
  {
    var ops: map<string, set<string>> := map["object" := {}];
    var acts := ["ops:object.no_such_op", "trigger_followup"];
    var d := Dispatch([], now, uiLastCheck, false);
    assert acts[0] == "ops:" + "object" + "." + "no_such_op" + "";
    assert Lower("ops:") == "ops:";
    MissingOperatorAborts(d, "ops:", "object", "no_such_op", "", acts[1..], ops);
    assert [acts[0]] + acts[1..] == acts;
  }

  /** The intended step skips an unknown operator in a known namespace. */
  lemma MissingOperatorSkipped(d: Dispatch, prefix: string, ns: string, name: string, tail: string,
                               ops: map<string, set<string>>)
    requires !d.aborted && |prefix| == 4 && Lower(prefix) == "ops:"
    requires '.' !in ns && '.' !in name && (tail == [] || tail[0] == '.') && ns in ops && name !in ops[ns]
    ensures StepIntended(d, prefix + ns + "." + name + tail, ops) == d
  {
    OperatorPath(d, prefix, ns, name, tail, ops);
  }

  /** On the same input the intended loop skips the unknown operator and the
      follow-up rewinds both clocks. */
  lemma IntendedPerformsFollowup(now: int, uiLastCheck: int)
    ensures var ops := map["object" := {}];
      var acts := ["ops:object.no_such_op", "trigger_followup"];
      var r := RunIntended(Dispatch([], now, uiLastCheck, false), acts, ops);
      !r.aborted && r.lastCheck == now - 10 && r.uiLastCheck == now - 10
  {
    var ops: map<string, set<string>> := map["object" := {}];
    var acts := ["ops:object.no_such_op", "trigger_followup"];
    var d := Dispatch([], now, uiLastCheck, false);
    assert acts[0] == "ops:" + "object" + "." + "no_such_op" + "";
    assert Lower("ops:") == "ops:";
    MissingOperatorSkipped(d, "ops:", "object", "no_such_op", "", ops);
    SkipThenFollowup(d, acts[0], ops);
    assert [acts[0], "trigger_followup"] == acts;
  }

  /** A skipped directive followed by `trigger_followup`: only the rewind. */
  lemma SkipThenFollowup(d: Dispatch, act: string, ops: map<string, set<string>>)
    requires !d.aborted && StepIntended(d, act, ops) == d
    ensures RunIntended(d, [act, "trigger_followup"], ops) ==
      d.(lastCheck := d.lastCheck - 10, uiLastCheck := d.lastCheck - 10)
  {
    FollowupStep(d, ops);
    assert [act, "trigger_followup"][1..] == ["trigger_followup"];
    assert ["trigger_followup"][1..] == [];
  }

  // ---------------------------------------------------------------------------
  // The suggestion operator
  // ---------------------------------------------------------------------------

  /** `ASSIST_OT_assistant_suggestion_action`: its properties and the snapshot
      of SUGGESTIONS taken when the dialog opened. */
  class SuggestionAction {
    var dismiss: bool
    var action: Option<string>
    var suggestionId: Option<string>
    var suggestionState: Option<Rule>

    constructor (snapshot: Option<Rule>)
      ensures suggestionState == snapshot && !dismiss && action == None && suggestionId == None
    {
      suggestionState := snapshot;
      dismiss := false;
      action := None;
      suggestionId := None;
    }

    /** The part of `draw` that decides what `execute` will do: with no snapshot,
        open the suggestion form; otherwise the snapshot's id and action (unset
        when empty), and the dismiss box offered iff `"dismiss"` is in its buttons. */
    method Draw() returns (offerDismiss: bool)
      modifies this`action, this`suggestionId
      ensures suggestionState.None? ==>
        action == Some("url:" + SuggestionFormUrl) && suggestionId == None && !offerDismiss
      ensures suggestionState.Some? ==>
        var s := suggestionState.value;
        suggestionId == Some(s.id) && offerDismiss == Contains(s.buttons, "dismiss") &&
        action == (if s.action == "" then None else Some(s.action))
    {
      if suggestionState == None {
        offerDismiss := false;
        action := Some("url:" + SuggestionFormUrl);
        suggestionId := None;
      } else {
        var s := suggestionState.value;
        offerDismiss := Contains(s.buttons, "dismiss");
        if s.action != "" {
          action := Some(s.action);
        } else {
          action := None;
        }
        suggestionId := Some(s.id);
      }
    }

    /** `execute`: stamps LAST_CHECK, records a dismissal, remembers the id
        acted on when there is an action, then runs the directives in order. */
    method Execute(tools: AssistantState, now: int, ops: map<string, set<string>>)
      returns (effects: seq<Effect>, aborted: bool)
      modifies tools`lastCheck, tools`uiLastCheck, tools`dismissed, tools`previousSuggestion
      ensures tools.dismissed ==
        if dismiss && IsSet(suggestionId) then old(tools.dismissed)[suggestionId.value := false]
        else old(tools.dismissed)
      ensures tools.previousSuggestion ==
        if IsSet(action) && IsSet(suggestionId) then suggestionId else old(tools.previousSuggestion)
      ensures var r := Run(Dispatch([], now, old(tools.uiLastCheck), false), Directives(action), ops);
        effects == r.effects && aborted == r.aborted &&
        tools.lastCheck == r.lastCheck && tools.uiLastCheck == r.uiLastCheck
    {
      tools.lastCheck := now;
      if dismiss && IsSet(suggestionId) {
        tools.SaveDismissedSuggestion(suggestionId.value, false);
      }
      effects, aborted := [], false;
      if !IsSet(action) {
        return;  // an unset or empty action: no directive runs
      }
      if IsSet(suggestionId) {
        tools.previousSuggestion := suggestionId;
      }
      effects, aborted := RunDirectives(tools, Split(action.value, " "), ops);
    }

    /** The directive loop of `execute`, in order, stopping at the first one
        that raises. */
    method RunDirectives(tools: AssistantState, actions: seq<string>, ops: map<string, set<string>>)
      returns (effects: seq<Effect>, aborted: bool)
      modifies tools`lastCheck, tools`uiLastCheck
      ensures var r := Run(Dispatch([], old(tools.lastCheck), old(tools.uiLastCheck), false), actions, ops);
        effects == r.effects && aborted == r.aborted &&
        tools.lastCheck == r.lastCheck && tools.uiLastCheck == r.uiLastCheck
    {
      ghost var start := Dispatch([], tools.lastCheck, tools.uiLastCheck, false);
      effects, aborted := [], false;
      var i := 0;
      while i < |actions|
        invariant 0 <= i <= |actions|
        invariant !aborted
        invariant Run(Dispatch(effects, tools.lastCheck, tools.uiLastCheck, false), actions[i..], ops) ==
          Run(start, actions, ops)
      {
        var act := actions[i];
        ghost var before := Dispatch(effects, tools.lastCheck, tools.uiLastCheck, false);
        assert actions[i..][0] == act && actions[i..][1..] == actions[i + 1..];
        if HasPrefix(Lower(act), "url:") {
          effects := effects + [OpenUrl(act[4..])];
        } else if HasPrefix(Lower(act), "ops:") {
          if '.' !in act {
            i := i + 1;
            continue;  // no period: the directive is skipped
          }
          DotInOperatorPath(act);
          SplitAtCharacter(act[4..], '.');
          var atr := Split(act[4..], ".");
          if atr[0] !in ops {
            i := i + 1;
            continue;  // unknown namespace: the directive is skipped
          } else if atr[1] !in ops[atr[0]] {
            aborted := true;  // unknown operator: the TypeError ends the loop
            return;
          }
          effects := effects + [InvokeOperator(atr[0], atr[1])];
        } else if act == "trigger_followup" {
          tools.lastCheck := tools.lastCheck - 10;
          tools.uiLastCheck := tools.lastCheck;
        }
        assert Dispatch(effects, tools.lastCheck, tools.uiLastCheck, false) == Step(before, act, ops);
        i := i + 1;
      }
      assert actions[i..] == [];
    }
  }
}
