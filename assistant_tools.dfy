/** The suggestion engine of the Suzanne Blender Assistant: the module-level
    state, the condition evaluator and first-match selector over the rule bank,
    the bounded operator history, the dismissal map, the background-thread
    start guard and the (single-pass) worker body.

    Blender is an input here: the operator report becomes a `Report`, the
    objects of the file and of the scene become a `Scene`, and wall-clock time
    becomes an integer `now` handed to each call. */
module AssistantTools {
  import opened PyStr

  // ---------------------------------------------------------------------------
  // Configuration
  // ---------------------------------------------------------------------------

  const CheckInterval := 5
  const ScenePopupInterval := 7
  const LastNActions := 20

  /** Patterns of noisy report lines the history was meant to skip. */
  const IgnoreActions: seq<string> := [
    "Warning:", "bpy.ops.object.select_all",
    "bpy.context.area.type =", "bpy.context.space_data.context =",
    "bpy.ops.object.location_clear", "bpy.ops.assist.suggestion_action"]

  // ---------------------------------------------------------------------------
  // Data
  // ---------------------------------------------------------------------------

  /** One row of the suggestion file. */
  datatype Rule = Rule(id: string, condition: string, suggestion: string, buttons: string, action: string)

  /** The exceptions the engine can raise on the way. */
  datatype Fault =
    | EmptyHistory          // `OPS_SEQUENCE[-1]` on an empty list
    | BadInterval(text: string)  // `int(...)` of an `elapsed:` argument that is no integer
    | NoReportText          // `new_texts[0]` when the report made no new text block

  datatype Outcome<T> = Ok(value: T) | Raised(fault: Fault)

  /** What the conditions can ask of Blender: the names in `bpy.data.objects`
      and the types of the objects of the current scene. */
  datatype Scene = Scene(dataObjects: set<string>, objectTypes: seq<string>)

  /** Everything a condition token is evaluated against. */
  datatype Facts = Facts(
    previous: Option<string>,  // PREVIOUS_SUGGESTION
    uiLastCheck: int,          // UI_LAST_CHECK
    now: int,                  // time.time()
    history: seq<string>,      // OPS_SEQUENCE
    scene: Scene)

  /** Result of evaluating one condition token. */
  datatype TokenResult = Pass | Fail | Unknown | Error(fault: Fault)

  /** Result of evaluating all the tokens of one rule. */
  datatype Verdict = Met | NotMet | Aborted(fault: Fault)

  /** What `bpy.ops.ui.reports_to_textblock` gave: not FINISHED, or FINISHED with
      the lines of each text block that appeared because of it. */
  datatype Report = NotFinished | Finished(newTexts: seq<seq<string>>)

  /** BACKGROUND_THREAD: no thread object, or one that is or is no longer alive. */
  datatype Worker = NoWorker | Worker(alive: bool)

  // ---------------------------------------------------------------------------
  // Environment queries
  // ---------------------------------------------------------------------------

  /** `is_void`: the scene has no objects, so in particular no camera. */
  function IsVoid(scene: Scene): (r: bool)
    ensures r ==> HasNoCamera(scene.objectTypes)
  {
    |scene.objectTypes| == 0
  }

  /** `has_no_camera`: scans the scene's objects and stops at the first camera. */
  function HasNoCamera(types: seq<string>): (r: bool)
    ensures r <==> forall i | 0 <= i < |types| :: types[i] != "CAMERA"
  {
    if types == [] then true
    else if types[0] == "CAMERA" then false
    else
      var rest := HasNoCamera(types[1..]);
      assert forall i | 1 <= i < |types| :: types[i] == types[1..][i - 1];
      rest
  }

  // ---------------------------------------------------------------------------
  // Condition evaluator
  // ---------------------------------------------------------------------------

  /** `cond[8:-1]` of an `elapsed:` token: drops the prefix and the last
      character (meant to be the `s` of seconds). */
  function IntervalText(tok: string): string
    requires |tok| >= 8
  {
    if |tok| >= 9 then tok[8..|tok| - 1] else ""
  }

  /** One token of a rule's condition, tested in the order of the source's
      `if`/`elif` chain. */
  function Check(tok: string, f: Facts): (r: TokenResult)
    ensures r == Unknown <==> !IsKnownToken(tok)
    ensures r.Error? ==> HasPrefix(tok, "elapsed:") || HasPrefix(tok, "ops_last:")
  {
    if tok == "not_dismissed" then Pass
    else if tok == "no_prev" then
      (if f.previous.None? then Pass else Fail)
    else if HasPrefix(tok, "prev:") then
      (if f.previous.Some? && f.previous.value in Split(tok[5..], ",") then Pass else Fail)
    else if HasPrefix(tok, "elapsed:") then
      match ParseInt(IntervalText(tok))
      case None => Error(BadInterval(IntervalText(tok)))
      case Some(n) => if n > f.now - f.uiLastCheck then Fail else Pass
    else if HasPrefix(tok, "ops_last:") then
      if f.history == [] then Error(EmptyHistory)
      else if Contains(f.history[|f.history| - 1], tok[9..]) then Pass else Fail
    else if HasPrefix(tok, "ops_recent:") then
      // the loop over OPS_SEQUENCE tests `cond[11:] in OPS_SEQUENCE` on each
      // round: list membership, false on an empty list
      (if tok[11..] in f.history then Pass else Fail)
    else if HasPrefix(tok, "object_exists:") then
      (if tok[14..] in f.scene.dataObjects then Pass else Fail)
    else if HasPrefix(tok, "no_object_exists:") then
      (if tok[17..] in f.scene.dataObjects then Fail else Pass)
    else if tok == "is_void" then
      (if IsVoid(f.scene) then Pass else Fail)
    else if tok == "no_camera" then
      (if HasNoCamera(f.scene.objectTypes) then Pass else Fail)
    else Unknown
  }

  /** The condition tokens of a rule: its condition split on single spaces. */
  function Tokens(r: Rule): seq<string>
  {
    Split(r.condition, " ")
  }

  /** The inner loop of `generate_suggestions` from token `i` on, with flag
      `met` (`condition_met`): a failing token breaks with the flag cleared,
      an unknown one clears the flag and the loop goes on, an exception ends
      everything. */
  function Scan(toks: seq<string>, f: Facts, i: nat, met: bool): (r: Verdict)
    requires i <= |toks|
    ensures r == Met ==> met
    ensures r.Aborted? ==> exists k | i <= k < |toks| :: Check(toks[k], f) == Error(r.fault)
    decreases |toks| - i
  {
    if i == |toks| then (if met then Met else NotMet)
    else match Check(toks[i], f)
      case Pass => Scan(toks, f, i + 1, met)
      case Fail => NotMet
      case Unknown => Scan(toks, f, i + 1, false)
      case Error(e) => Aborted(e)
  }

  /** A rule's tokens are AND-combined: the rule is met exactly when every token
      passes. */
  function RuleVerdict(toks: seq<string>, f: Facts): (r: Verdict)
    ensures r == Met <==> forall k | 0 <= k < |toks| :: Check(toks[k], f) == Pass
  {
    ScanMet(toks, f, 0, true);
    Scan(toks, f, 0, true)
  }

  lemma {:induction false} ScanMet(toks: seq<string>, f: Facts, i: nat, met: bool)
    requires i <= |toks|
    ensures Scan(toks, f, i, met) == Met <==> met && forall k | i <= k < |toks| :: Check(toks[k], f) == Pass
    decreases |toks| - i
  {
    if i < |toks| {
      ScanMet(toks, f, i + 1, met);
      ScanMet(toks, f, i + 1, false);
      var c := Check(toks[i], f);
      assert Scan(toks, f, i, met) == match c
        case Pass => Scan(toks, f, i + 1, met)
        case Fail => NotMet
        case Unknown => Scan(toks, f, i + 1, false)
        case Error(e) => Aborted(e);
    }
  }

  /** An unrecognised token fails closed, wherever it stands and whatever the
      other tokens say. */
  lemma UnknownTokenFailsClosed(toks: seq<string>, f: Facts, j: nat)
    requires j < |toks| && Check(toks[j], f) == Unknown
    ensures RuleVerdict(toks, f) != Met
  {
  }

  /** Which tokens the evaluator knows, stated apart from its `elif` chain. */
  predicate IsKnownToken(tok: string)
  {
    || tok in ["not_dismissed", "no_prev", "is_void", "no_camera"]
    || HasPrefix(tok, "prev:") || HasPrefix(tok, "elapsed:") || HasPrefix(tok, "ops_last:")
    || HasPrefix(tok, "ops_recent:") || HasPrefix(tok, "object_exists:") || HasPrefix(tok, "no_object_exists:")
  }

  /** An empty token (from an empty condition, a doubled, leading or trailing
      space) makes its rule unmatchable. */
  lemma EmptyTokenNeverMatches(r: Rule, f: Facts)
    requires "" in Tokens(r)
    ensures RuleVerdict(Tokens(r), f) != Met
  {
    var j :| 0 <= j < |Tokens(r)| && Tokens(r)[j] == "";
    assert !IsKnownToken("");
    UnknownTokenFailsClosed(Tokens(r), f, j);
  }

  /** A rule with an empty condition string never matches. */
  lemma EmptyConditionNeverMatches(r: Rule, f: Facts)
    requires r.condition == ""
    ensures RuleVerdict(Tokens(r), f) != Met
  {
    assert Tokens(r) == [""];
    EmptyTokenNeverMatches(r, f);
  }

  // --- what each known token means ------------------------------------------

  lemma NoPrevToken(f: Facts)
    ensures Check("no_prev", f) == Pass <==> f.previous.None?
    ensures Check("no_prev", f) in {Pass, Fail}
  {
    var tok := "no_prev";
    PrefixParts(tok, "");
    DifferentPrefix(tok, tok, "not_dismissed", 2);
  }

  /** `prev:a,b,...` passes iff the previous suggestion is one of the listed ids. */
  lemma PrevToken(ids: string, f: Facts)
    ensures Check("prev:" + ids, f) == Pass <==> f.previous.Some? && f.previous.value in Split(ids, ",")
    ensures Check("prev:" + ids, f) in {Pass, Fail}
  {
    var p, tok := "prev:", "prev:" + ids;
    PrefixParts(p, ids);
    DifferentPrefix(tok, p, "not_dismissed", 0);
    DifferentPrefix(tok, p, "no_prev", 0);
  }

  /** `elapsed:<N>s` passes iff at least N seconds went by since UI_LAST_CHECK. */
  lemma ElapsedToken(n: nat, unit: char, f: Facts)
    ensures Check("elapsed:" + Decimal(n) + [unit], f) == Pass <==> f.now - f.uiLastCheck >= n
    ensures Check("elapsed:" + Decimal(n) + [unit], f) in {Pass, Fail}
  {
    var p, tok := "elapsed:", "elapsed:" + Decimal(n) + [unit];
    assert tok == p + (Decimal(n) + [unit]);
    PrefixParts(p, Decimal(n) + [unit]);
    ElapsedBranch(tok, f);
    assert IntervalText(tok) == Decimal(n);
    ParseDecimal(n);
  }

  /** An `elapsed:` argument that is not an integer raises. */
  lemma ElapsedWithoutNumberRaises(unit: char, f: Facts)
    ensures Check("elapsed:" + [unit], f).Error?
  {
    var p, tok := "elapsed:", "elapsed:" + [unit];
    PrefixParts(p, [unit]);
    ElapsedBranch(tok, f);
    assert IntervalText(tok) == "";
  }

  /** A token starting `elapsed:` reaches the `elapsed:` branch. */
  lemma ElapsedBranch(tok: string, f: Facts)
    requires HasPrefix(tok, "elapsed:")
    ensures Check(tok, f) ==
      match ParseInt(IntervalText(tok))
      case None => Error(BadInterval(IntervalText(tok)))
      case Some(n) => if n > f.now - f.uiLastCheck then Fail else Pass
  {
    var p := "elapsed:";
    DifferentPrefix(tok, p, "not_dismissed", 0);
    DifferentPrefix(tok, p, "no_prev", 0);
    DifferentPrefix(tok, p, "prev:", 0);
  }

  /** `ops_last:x` passes iff `x` is a substring of the last history entry. */
  lemma OpsLastToken(x: string, f: Facts)
    requires |f.history| > 0
    ensures Check("ops_last:" + x, f) == Pass <==> Contains(f.history[|f.history| - 1], x)
    ensures Check("ops_last:" + x, f) in {Pass, Fail}
  {
    OpsLastBranch(x, f);
  }

  /** `ops_last:` on an empty history raises instead of failing. */
  lemma OpsLastEmptyHistory(x: string, f: Facts)
    requires f.history == []
    ensures Check("ops_last:" + x, f) == Error(EmptyHistory)
  {
    OpsLastBranch(x, f);
  }

  /** An `ops_last:` token reaches the `ops_last:` branch. */
  lemma OpsLastBranch(x: string, f: Facts)
    ensures Check("ops_last:" + x, f) ==
      if f.history == [] then Error(EmptyHistory)
      else if Contains(f.history[|f.history| - 1], x) then Pass else Fail
  {
    var p, tok := "ops_last:", "ops_last:" + x;
    PrefixParts(p, x);
    DifferentPrefix(tok, p, "not_dismissed", 0);
    DifferentPrefix(tok, p, "no_prev", 0);
    DifferentPrefix(tok, p, "prev:", 0);
    DifferentPrefix(tok, p, "elapsed:", 0);
  }

  /** `ops_recent:x` passes iff `x` equals a whole history entry. */
  lemma OpsRecentToken(x: string, f: Facts)
    ensures Check("ops_recent:" + x, f) == Pass <==> exists k | 0 <= k < |f.history| :: f.history[k] == x
    ensures Check("ops_recent:" + x, f) in {Pass, Fail}
  {
    var p, tok := "ops_recent:", "ops_recent:" + x;
    PrefixParts(p, x);
    DifferentPrefix(tok, p, "not_dismissed", 0);
    DifferentPrefix(tok, p, "no_prev", 0);
    DifferentPrefix(tok, p, "prev:", 0);
    DifferentPrefix(tok, p, "elapsed:", 0);
    DifferentPrefix(tok, p, "ops_last:", 4);
  }

  lemma ObjectExistsToken(name: string, f: Facts)
    ensures Check("object_exists:" + name, f) == Pass <==> name in f.scene.dataObjects
    ensures Check("object_exists:" + name, f) in {Pass, Fail}
  {
    var p, tok := "object_exists:", "object_exists:" + name;
    PrefixParts(p, name);
    DifferentPrefix(tok, p, "not_dismissed", 0);
    DifferentPrefix(tok, p, "no_prev", 0);
    DifferentPrefix(tok, p, "prev:", 0);
    DifferentPrefix(tok, p, "elapsed:", 0);
    DifferentPrefix(tok, p, "ops_last:", 1);
    DifferentPrefix(tok, p, "ops_recent:", 1);
  }

  lemma NoObjectExistsToken(name: string, f: Facts)
    ensures Check("no_object_exists:" + name, f) == Pass <==> name !in f.scene.dataObjects
    ensures Check("no_object_exists:" + name, f) in {Pass, Fail}
  {
    var p, tok := "no_object_exists:", "no_object_exists:" + name;
    PrefixParts(p, name);
    DifferentPrefix(tok, p, "not_dismissed", 2);
    DifferentPrefix(tok, p, "no_prev", 3);
    DifferentPrefix(tok, p, "prev:", 0);
    DifferentPrefix(tok, p, "elapsed:", 0);
    DifferentPrefix(tok, p, "ops_last:", 0);
    DifferentPrefix(tok, p, "ops_recent:", 0);
    DifferentPrefix(tok, p, "object_exists:", 0);
  }

  lemma IsVoidToken(f: Facts)
    ensures Check("is_void", f) == Pass <==> f.scene.objectTypes == []
    ensures Check("is_void", f) in {Pass, Fail}
  {
    var tok := "is_void";
    PrefixParts(tok, "");
    DifferentPrefix(tok, tok, "not_dismissed", 0);
    DifferentPrefix(tok, tok, "no_prev", 0);
    DifferentPrefix(tok, tok, "prev:", 0);
    DifferentPrefix(tok, tok, "elapsed:", 0);
    DifferentPrefix(tok, tok, "ops_last:", 0);
    DifferentPrefix(tok, tok, "ops_recent:", 0);
    DifferentPrefix(tok, tok, "object_exists:", 0);
    DifferentPrefix(tok, tok, "no_object_exists:", 0);
  }

  lemma NoCameraToken(f: Facts)
    ensures Check("no_camera", f) == Pass <==> "CAMERA" !in f.scene.objectTypes
    ensures Check("no_camera", f) in {Pass, Fail}
  {
    var tok := "no_camera";
    PrefixParts(tok, "");
    DifferentPrefix(tok, tok, "not_dismissed", 2);
    DifferentPrefix(tok, tok, "no_prev", 3);
    DifferentPrefix(tok, tok, "prev:", 0);
    DifferentPrefix(tok, tok, "elapsed:", 0);
    DifferentPrefix(tok, tok, "ops_last:", 0);
    DifferentPrefix(tok, tok, "ops_recent:", 0);
    DifferentPrefix(tok, tok, "object_exists:", 0);
    DifferentPrefix(tok, tok, "no_object_exists:", 3);
    DifferentPrefix(tok, tok, "is_void", 0);
  }

  // ---------------------------------------------------------------------------
  // Suggestion selector
  // ---------------------------------------------------------------------------

  /** The outer loop of `generate_suggestions` from rule `i` on: dismissed ids
      are skipped, the first rule whose verdict is `Met` is the suggestion, an
      exception ends the pass. */
  function SelectFrom(rules: seq<Rule>, dismissed: set<string>, f: Facts, i: nat): (r: Outcome<Option<Rule>>)
    requires i <= |rules|
    ensures r.Ok? && r.value.Some? ==> r.value.value in rules[i..] && r.value.value.id !in dismissed
    decreases |rules| - i
  {
    if i == |rules| then Ok(None)
    else if rules[i].id in dismissed then SelectFrom(rules, dismissed, f, i + 1)
    else match RuleVerdict(Tokens(rules[i]), f)
      case Met => Ok(Some(rules[i]))
      case NotMet => SelectFrom(rules, dismissed, f, i + 1)
      case Aborted(e) => Raised(e)
  }

  /** `generate_suggestions`' choice: a rule of the bank that is not dismissed,
      nothing, or the exception of a rule that is not dismissed (`SelectFrom`). */
  function Select(rules: seq<Rule>, dismissed: set<string>, f: Facts): (r: Outcome<Option<Rule>>)
    ensures r.Ok? && r.value.Some? ==> r.value.value in rules && r.value.value.id !in dismissed
  {
    SelectFrom(rules, dismissed, f, 0)
  }

  /** Rule `i` is passed over: dismissed, or its conditions are not met. */
  predicate PassedOver(rules: seq<Rule>, dismissed: set<string>, f: Facts, i: nat)
    requires i < |rules|
  {
    rules[i].id in dismissed || RuleVerdict(Tokens(rules[i]), f) == NotMet
  }

  /** Rule `i` can be offered: not dismissed and every condition passes. */
  predicate Eligible(rules: seq<Rule>, dismissed: set<string>, f: Facts, i: nat)
    requires i < |rules|
  {
    rules[i].id !in dismissed && RuleVerdict(Tokens(rules[i]), f) == Met
  }

  /** The selected rule is the first eligible one; every rule before it was
      passed over. */
  lemma SelectedIsFirstEligible(rules: seq<Rule>, dismissed: set<string>, f: Facts, r: Rule)
    requires Select(rules, dismissed, f) == Ok(Some(r))
    ensures exists i | 0 <= i < |rules| ::
      (rules[i] == r && Eligible(rules, dismissed, f, i) &&
       forall j | 0 <= j < i :: PassedOver(rules, dismissed, f, j))
  {
    var i := SelectedFrom(rules, dismissed, f, 0, r);
  }

  lemma {:induction false} SelectedFrom(rules: seq<Rule>, dismissed: set<string>, f: Facts, k: nat, r: Rule)
    returns (i: nat)
    requires k <= |rules| && SelectFrom(rules, dismissed, f, k) == Ok(Some(r))
    ensures k <= i < |rules| && rules[i] == r && Eligible(rules, dismissed, f, i)
    ensures forall j | k <= j < i :: PassedOver(rules, dismissed, f, j)
    decreases |rules| - k
  {
    if rules[k].id in dismissed || RuleVerdict(Tokens(rules[k]), f) != Met {
      i := SelectedFrom(rules, dismissed, f, k + 1, r);
    } else {
      i := k;
    }
  }

  /** An exception comes from a rule that is not dismissed, and it is the
      exception raised while evaluating that rule's own tokens. */
  lemma {:induction false} RaisedFrom(rules: seq<Rule>, dismissed: set<string>, f: Facts, k: nat, e: Fault)
    returns (i: nat)
    requires k <= |rules| && SelectFrom(rules, dismissed, f, k) == Raised(e)
    ensures k <= i < |rules| && rules[i].id !in dismissed && RuleVerdict(Tokens(rules[i]), f) == Aborted(e)
    decreases |rules| - k
  {
    if rules[k].id !in dismissed && RuleVerdict(Tokens(rules[k]), f) != NotMet {
      i := k;
    } else {
      i := RaisedFrom(rules, dismissed, f, k + 1, e);
    }
  }

  /** Conversely, the first eligible rule is the one selected, whatever the
      rules after it say. */
  lemma {:induction false} FirstEligibleIsSelected(rules: seq<Rule>, dismissed: set<string>, f: Facts, i: nat)
    requires i < |rules| && Eligible(rules, dismissed, f, i)
    requires forall j | 0 <= j < i :: PassedOver(rules, dismissed, f, j)
    ensures Select(rules, dismissed, f) == Ok(Some(rules[i]))
  {
    var k := i;
    while k > 0
      invariant 0 <= k <= i
      invariant SelectFrom(rules, dismissed, f, k) == Ok(Some(rules[i]))
    {
      k := k - 1;
      assert PassedOver(rules, dismissed, f, k);
    }
  }

  /** No suggestion is published exactly when every rule is passed over. */
  lemma {:induction false} NothingSelectedIffAllPassedOver(rules: seq<Rule>, dismissed: set<string>, f: Facts)
    ensures Select(rules, dismissed, f) == Ok(None) <==>
      forall j | 0 <= j < |rules| :: PassedOver(rules, dismissed, f, j)
  {
    var k := |rules|;
    while k > 0
      invariant 0 <= k <= |rules|
      invariant SelectFrom(rules, dismissed, f, k) == Ok(None) <==>
        forall j | k <= j < |rules| :: PassedOver(rules, dismissed, f, j)
    {
      k := k - 1;
      assert SelectFrom(rules, dismissed, f, k) == Ok(None) <==>
        PassedOver(rules, dismissed, f, k) && SelectFrom(rules, dismissed, f, k + 1) == Ok(None);
    }
  }

  /** A first-time tutorial rule guarded by `no_prev` is offered until some
      suggestion has been acted on, and not after. */
  lemma IntroductionScenario(f: Facts, id: string)
    ensures var intro := Rule("intro", "no_prev", "", "", "");
      Select([intro], {}, f.(previous := None)) == Ok(Some(intro)) &&
      Select([intro], {}, f.(previous := Some(id))) == Ok(None)
  {
    var intro := Rule("intro", "no_prev", "", "", "");
    SplitWithoutCharacter("no_prev", ' ');
    assert Tokens(intro) == ["no_prev"];
  }

  /** A rule guarded by `object_exists:<name>` follows the presence of an
      object of that name. */
  lemma ObjectScenario(name: string, f: Facts)
    requires ' ' !in name
    ensures var rule := Rule("cam", "object_exists:" + name, "", "", "");
      Select([rule], {}, f) == if name in f.scene.dataObjects then Ok(Some(rule)) else Ok(None)
  {
    var tok := "object_exists:" + name;
    var rule := Rule("cam", tok, "", "", "");
    assert ' ' !in tok by {
      assert forall i | 0 <= i < |tok| :: tok[i] == if i < 14 then "object_exists:"[i] else name[i - 14];
    }
    SplitWithoutCharacter(tok, ' ');
    assert Tokens(rule) == [tok];
    ObjectExistsToken(name, f);
    assert [tok][0] == tok && Scan([tok], f, 1, true) == Met;
    assert RuleVerdict(Tokens(rule), f) == if name in f.scene.dataObjects then Met else NotMet;
    assert [rule][0] == rule && SelectFrom([rule], {}, f, 1) == Ok(None);
  }

  // ---------------------------------------------------------------------------
  // Operator history
  // ---------------------------------------------------------------------------

  function Filter(lines: seq<string>, keep: string -> bool): (r: seq<string>)
    ensures forall k | 0 <= k < |r| :: keep(r[k]) && r[k] in lines
  {
    if lines == [] then []
    else (if keep(lines[0]) then [lines[0]] else []) + Filter(lines[1..], keep)
  }

  function Reverse(s: seq<string>): (r: seq<string>)
    ensures |r| == |s|
  {
    if s == [] then [] else Reverse(s[1..]) + [s[0]]
  }

  lemma {:induction false} ReverseAppend(a: seq<string>, b: seq<string>)
    ensures Reverse(a + b) == Reverse(b) + Reverse(a)
  {
    if a != [] {
      assert (a + b)[1..] == a[1..] + b;
      ReverseAppend(a[1..], b);
    } else {
      assert a + b == b;
    }
  }

  lemma {:induction false} FilterAppend(a: seq<string>, b: seq<string>, keep: string -> bool)
    ensures Filter(a + b, keep) == Filter(a, keep) + Filter(b, keep)
  {
    if a != [] {
      assert (a + b)[1..] == a[1..] + b;
      FilterAppend(a[1..], b, keep);
    } else {
      assert a + b == b;
    }
  }

  lemma ReverseMembers(s: seq<string>)
    ensures forall x :: x in Reverse(s) <==> x in s
  {
    if s != [] {
      ReverseMembers(s[1..]);
      assert s == [s[0]] + s[1..];
    }
  }

  /** A report line worth recording: `if not line.body: continue`. */
  predicate IsRecorded(line: string)
  {
    line != ""
  }

  /** At most `n` leading elements. */
  function Take(s: seq<string>, n: nat): (r: seq<string>)
    ensures |r| == if |s| <= n then |s| else n
    ensures r <= s
  {
    if |s| <= n then s else s[..n]
  }

  /** OPS_SEQUENCE after a successful refresh: the non-empty lines of the report
      block, newest (last) line first, at most LAST_N_ACTIONS of them. */
  function Recent(lines: seq<string>): (r: seq<string>)
    ensures var n := |Filter(lines, IsRecorded)|; |r| == if n <= LastNActions then n else LastNActions
    ensures forall k | 0 <= k < |r| :: r[k] != "" && r[k] in lines
  {
    var all := Reverse(Filter(lines, IsRecorded));
    ReverseMembers(Filter(lines, IsRecorded));
    var r := Take(all, LastNActions);
    assert forall k | 0 <= k < |r| :: r[k] == all[k] && all[k] in all;
    r
  }

  lemma {:induction false} ReverseIndex(s: seq<string>, k: int)
    requires 0 <= k < |s|
    ensures Reverse(s)[k] == s[|s| - 1 - k]
  {
    if k < |s| - 1 {
      ReverseIndex(s[1..], k);
    }
  }

  /** The history lists the recorded lines newest first: entry `k` is the
      `k`-th recorded line counted back from the end of the report. */
  lemma RecentNewestFirst(lines: seq<string>, k: int)
    requires 0 <= k < |Recent(lines)|
    ensures var kept := Filter(lines, IsRecorded);
      Recent(lines)[k] == kept[|kept| - 1 - k]
  {
    var kept := Filter(lines, IsRecorded);
    ReverseIndex(kept, k);
  }

  /** Hence `OPS_SEQUENCE[-1]`, which `ops_last:` reads, is the oldest entry
      kept: with no more than LAST_N_ACTIONS recorded lines it is the first
      one of the report, not the most recent. */
  lemma OpsLastReadsOldest(lines: seq<string>)
    requires 0 < |Filter(lines, IsRecorded)| <= LastNActions
    ensures var r := Recent(lines);
      |r| > 0 && r[|r| - 1] == Filter(lines, IsRecorded)[0]
  {
    var r := Recent(lines);
    RecentNewestFirst(lines, |r| - 1);
  }

  /** Reading the report block backwards one line at a time: line `j` is
      appended to the history of the lines after it when it is recorded. */
  lemma HistoryStep(lines: seq<string>, j: nat)
    requires j < |lines|
    ensures Reverse(Filter(lines[j..], IsRecorded)) ==
      Reverse(Filter(lines[j + 1..], IsRecorded)) + (if IsRecorded(lines[j]) then [lines[j]] else [])
  {
    assert lines[j..][0] == lines[j] && lines[j..][1..] == lines[j + 1..];
    var rest := Filter(lines[j + 1..], IsRecorded);
    if IsRecorded(lines[j]) {
      ReverseAppend([lines[j]], rest);
      assert Reverse([lines[j]]) == [lines[j]];
    } else {
      assert Filter(lines[j..], IsRecorded) == rest;
    }
  }

  /** The history read from line `j` on is the start of the history of the
      whole block. */
  lemma HistoryPrefix(lines: seq<string>, j: nat)
    requires j <= |lines|
    ensures Reverse(Filter(lines, IsRecorded)) ==
      Reverse(Filter(lines[j..], IsRecorded)) + Reverse(Filter(lines[..j], IsRecorded))
  {
    assert lines == lines[..j] + lines[j..];
    FilterAppend(lines[..j], lines[j..], IsRecorded);
    ReverseAppend(Filter(lines[..j], IsRecorded), Filter(lines[j..], IsRecorded));
  }

  /** A line matched by the ignore list. */
  predicate IsIgnored(line: string)
  {
    exists k | 0 <= k < |IgnoreActions| :: Contains(line, IgnoreActions[k])
  }

  /** As written, the ignore list filters nothing: a select-all line, which the
      list names, is recorded. */
  lemma RecentKeepsIgnoredLines()
    ensures var line := "bpy.ops.object.select_all(action='TOGGLE')";
      IsIgnored(line) && Recent([line]) == [line]
  {
    var line := "bpy.ops.object.select_all(action='TOGGLE')";
    assert OccursAt(line, IgnoreActions[1], 0);
    assert Filter([line], IsRecorded) == [line];
  }

  predicate IsRecordedIntended(line: string)
  {
    line != "" && !IsIgnored(line)
  }

  /** The history as the ignore list intends it: no recorded line matches a
      pattern of the list. */
  function RecentIntended(lines: seq<string>): (r: seq<string>)
    ensures var n := |Filter(lines, IsRecordedIntended)|; |r| == if n <= LastNActions then n else LastNActions
    ensures forall k | 0 <= k < |r| :: r[k] != "" && !IsIgnored(r[k]) && r[k] in lines
  {
    var kept := Filter(lines, IsRecordedIntended);
    ReverseMembers(kept);
    var r := Take(Reverse(kept), LastNActions);
    assert forall k | 0 <= k < |r| :: r[k] == Reverse(kept)[k] && Reverse(kept)[k] in Reverse(kept);
    r
  }

  // ---------------------------------------------------------------------------
  // Module state
  // ---------------------------------------------------------------------------

  /** The module-level globals of the engine, updated in place by its functions
      and by the UI. */
  class AssistantState {
    var lastCheck: int                 // LAST_CHECK
    var uiLastCheck: int               // UI_LAST_CHECK
    var worker: Worker                 // BACKGROUND_THREAD
    var stopServer: bool               // STOP_SERVER
    var bank: seq<Rule>                // SUGGESTION_BANK
    var suggestion: Option<Rule>       // SUGGESTIONS ({} is None)
    var opsSequence: seq<string>       // OPS_SEQUENCE
    var previousSuggestion: Option<string>  // PREVIOUS_SUGGESTION
    var previousPopup: Option<string>  // PREVIOUS_POPUP
    var dismissed: map<string, bool>   // DISMISSED

    /** The values the module starts with. */
    constructor ()
      ensures lastCheck == 0 && uiLastCheck == 0 && worker == NoWorker && !stopServer
      ensures bank == [] && suggestion == None && opsSequence == []
      ensures previousSuggestion == None && previousPopup == None && dismissed == map[]
    {
      lastCheck, uiLastCheck := 0, 0;
      worker, stopServer := NoWorker, false;
      bank, suggestion, opsSequence := [], None, [];
      previousSuggestion, previousPopup := None, None;
      dismissed := map[];
    }

    /** `get_dismissed_suggestions`: the dismissed ids. */
    function DismissedSuggestions(): (ids: set<string>)
      reads this
      ensures forall id :: id in ids <==> id in dismissed
    {
      dismissed.Keys
    }

    /** `save_dismissed_suggestion`: records the id with its (unused) disk flag. */
    method SaveDismissedSuggestion(id: string, disk: bool)
      modifies this`dismissed
      ensures dismissed == old(dismissed)[id := disk]
      ensures id in DismissedSuggestions()
      ensures forall other | other != id :: other in dismissed <==> other in old(dismissed)
    {
      dismissed := dismissed[id := disk];
    }

    /** Dismissing an id and then running the selector: whatever its conditions,
        the rule with that id is not the one published. */
    method DismissThenGenerate(id: string, now: int, scene: Scene) returns (fault: Option<Fault>)
      modifies this`dismissed, this`suggestion
      ensures id in dismissed
      ensures fault == None && suggestion.Some? ==> suggestion.value.id != id
    {
      SaveDismissedSuggestion(id, false);
      fault := GenerateSuggestions(now, scene);
    }

    /** The facts the selector sees at time `now`. */
    function CurrentFacts(now: int, scene: Scene): Facts
      reads this
    {
      Facts(previousSuggestion, uiLastCheck, now, opsSequence, scene)
    }

    /** `generate_suggestions`: publishes the first eligible rule, or nothing;
        an exception leaves SUGGESTIONS as it was. */
    method GenerateSuggestions(now: int, scene: Scene) returns (fault: Option<Fault>)
      modifies this`suggestion
      ensures var r := Select(bank, dismissed.Keys, CurrentFacts(now, scene));
        (r.Ok? ==> suggestion == r.value && fault == None) &&
        (r.Raised? ==> suggestion == old(suggestion) && fault == Some(r.fault))
    {
      var outcome := SelectRule(bank, DismissedSuggestions(), CurrentFacts(now, scene));
      match outcome {
        case Ok(localSugg) =>
          suggestion := localSugg;
          fault := None;
        case Raised(e) =>
          fault := Some(e);
      }
    }

    /** The outer loop of `generate_suggestions` over the rule bank: dismissed
        rules are skipped, the first rule whose conditions are met ends the
        loop, an exception leaves it at once. */
    static method SelectRule(rules: seq<Rule>, dismissedIds: set<string>, f: Facts)
      returns (outcome: Outcome<Option<Rule>>)
      ensures outcome == Select(rules, dismissedIds, f)
    {
      var localSugg: Option<Rule> := None;
      var i := 0;
      while i < |rules|
        invariant 0 <= i <= |rules|
        invariant localSugg == None
        invariant SelectFrom(rules, dismissedIds, f, i) == Select(rules, dismissedIds, f)
      {
        var rule := rules[i];
        if rule.id in dismissedIds {
          i := i + 1;
          continue;
        }
        var verdict := EvaluateConditions(Split(rule.condition, " "), f);
        if verdict.Aborted? {
          return Raised(verdict.fault);
        }
        var conditionMet := verdict == Met;
        if conditionMet {
          localSugg := Some(rule);
          break;
        }
        i := i + 1;
      }
      outcome := Ok(localSugg);
    }

    /** The inner loop of `generate_suggestions` over one rule's tokens: a
        failing token breaks with `condition_met` cleared, an unknown one clears
        it and the loop goes on, an exception leaves the whole pass. */
    static method EvaluateConditions(conditions: seq<string>, f: Facts) returns (verdict: Verdict)
      ensures verdict == RuleVerdict(conditions, f)
    {
      var conditionMet := true;
      var j := 0;
      while j < |conditions|
        invariant 0 <= j <= |conditions|
        invariant Scan(conditions, f, j, conditionMet) == RuleVerdict(conditions, f)
      {
        match Check(conditions[j], f) {
          case Pass =>
          case Fail =>
            conditionMet := false;
            break;
          case Unknown =>
            conditionMet := false;
          case Error(e) =>
            return Aborted(e);
        }
        j := j + 1;
      }
      verdict := if conditionMet then Met else NotMet;
    }

    /** `update_ops_sequence`: rebuilds OPS_SEQUENCE from the report block. */
    method UpdateOpsSequence(report: Report) returns (fault: Option<Fault>)
      modifies this`opsSequence
      ensures report.NotFinished? ==> opsSequence == [] && fault == None
      ensures report == Finished([]) ==> opsSequence == [] && fault == Some(NoReportText)
      ensures report.Finished? && report.newTexts != [] ==>
        opsSequence == Recent(report.newTexts[0]) && fault == None
    {
      if report.NotFinished? {
        opsSequence := [];
        return None;
      }
      opsSequence := [];
      if report.newTexts == [] {
        return Some(NoReportText);
      }
      var lines := report.newTexts[0];
      var j := |lines|;
      while j > 0
        invariant 0 <= j <= |lines|
        invariant opsSequence == Reverse(Filter(lines[j..], IsRecorded))
        invariant |opsSequence| < LastNActions
      {
        j := j - 1;
        var line := lines[j];
        HistoryStep(lines, j);
        if line == "" {
          continue;
        }
        // `continue` here only moves on to the next pattern, so nothing is skipped
        for k := 0 to |IgnoreActions| {
          if Contains(line, IgnoreActions[k]) {
            continue;
          }
        }
        opsSequence := opsSequence + [line];
        if |opsSequence| >= LastNActions {
          break;
        }
      }
      HistoryPrefix(lines, j);
      fault := None;
    }

    /** `start_background_thread_if_none`: starts a worker unless stopped, one is
        alive, or less than CHECK_INTERVAL passed since a non-zero LAST_CHECK. */
    method StartBackgroundThreadIfNone(now: int) returns (started: bool)
      modifies this`worker, this`lastCheck
      ensures started <==>
        (!stopServer && old(worker) != Worker(true) &&
         (old(lastCheck) == 0 || now >= old(lastCheck) + CheckInterval))
      ensures started ==>
        (worker == Worker(true) && lastCheck == (if old(lastCheck) == 0 then now else old(lastCheck)))
      ensures !started ==> lastCheck == old(lastCheck)
      ensures !started ==> worker == (if !stopServer && old(worker) == Worker(false) then NoWorker else old(worker))
    {
      if stopServer {
        return false;
      }
      if worker == Worker(true) {
        return false;
      }
      if worker == Worker(false) {
        worker := NoWorker;
      }
      if lastCheck != 0 && now < lastCheck + CheckInterval {
        return false;
      }
      if lastCheck == 0 {
        lastCheck := now;
      }
      worker := Worker(true);
      started := true;
    }

    /** `assistant_thread`, run to completion: loads the bank if empty, then,
        unless stopped, makes one pass and leaves the loop at the unconditional
        `break`. `loaded` is what the suggestion file holds. */
    method AssistantThread(now: int, loaded: seq<Rule>, report: Report, scene: Scene)
      returns (fault: Option<Fault>)
      modifies this`bank, this`lastCheck, this`opsSequence, this`suggestion, this`worker
      ensures bank == if old(bank) == [] then loaded else old(bank)
      ensures old(stopServer) ==>
        (worker == NoWorker && fault == None && lastCheck == old(lastCheck) &&
         opsSequence == old(opsSequence) && suggestion == old(suggestion))
      ensures !old(stopServer) ==>
        lastCheck == (if old(lastCheck) != 0 && now < old(lastCheck) + CheckInterval
                      then old(lastCheck) + CheckInterval else now)
      ensures !old(stopServer) && report == Finished([]) ==>
        fault == Some(NoReportText) && worker == Worker(false) && suggestion == old(suggestion) &&
        opsSequence == []
      ensures !old(stopServer) && report != Finished([]) ==>
        var history := if report.NotFinished? then [] else Recent(report.newTexts[0]);
        var f := Facts(previousSuggestion, uiLastCheck, lastCheck, history, scene);
        var r := Select(bank, dismissed.Keys, f);
        opsSequence == history &&
        (r.Ok? ==> suggestion == r.value && fault == None && worker == NoWorker) &&
        (r.Raised? ==> suggestion == old(suggestion) && fault == Some(r.fault) && worker == Worker(false))
      ensures stopServer == old(stopServer) && dismissed == old(dismissed)
      ensures previousSuggestion == old(previousSuggestion) && previousPopup == old(previousPopup)
      ensures uiLastCheck == old(uiLastCheck)
    {
      if bank == [] {
        bank := loaded;
      }
      fault := None;
      // `while STOP_SERVER is False:` ends with an unconditional `break`, so its
      // body runs at most once
      if !stopServer {
        fault := ThreadPass(now, report, scene);
      } else {
        worker := NoWorker;
      }
    }

    /** One pass of the thread's loop body: waits out the interval, refreshes
        the history and selects; an exception kills the thread. */
    method ThreadPass(now: int, report: Report, scene: Scene) returns (fault: Option<Fault>)
      modifies this`lastCheck, this`opsSequence, this`suggestion, this`worker
      ensures lastCheck == (if old(lastCheck) != 0 && now < old(lastCheck) + CheckInterval
                            then old(lastCheck) + CheckInterval else now)
      ensures report == Finished([]) ==>
        fault == Some(NoReportText) && worker == Worker(false) && suggestion == old(suggestion) &&
        opsSequence == []
      ensures report != Finished([]) ==>
        var history := if report.NotFinished? then [] else Recent(report.newTexts[0]);
        var f := Facts(previousSuggestion, uiLastCheck, lastCheck, history, scene);
        var r := Select(bank, dismissed.Keys, f);
        opsSequence == history &&
        (r.Ok? ==> suggestion == r.value && fault == None && worker == NoWorker) &&
        (r.Raised? ==> suggestion == old(suggestion) && fault == Some(r.fault) && worker == Worker(false))
    {
      var t := now;
      if lastCheck != 0 && t < lastCheck + CheckInterval {
        t := lastCheck + CheckInterval;  // time.sleep until the interval is over
      }
      lastCheck := t;
      fault := UpdateOpsSequence(report);
      if fault.Some? {
        worker := Worker(false);  // the thread dies with the exception
        return;
      }
      fault := GenerateSuggestions(t, scene);
      if fault.Some? {
        worker := Worker(false);
        return;
      }
      worker := NoWorker;
    }

    /** `register`: clears the stop flag. */
    method Register()
      modifies this`stopServer
      ensures !stopServer
    {
      stopServer := false;
    }

    /** `unregister`: stops the worker and forgets the bank and the suggestion. */
    method Unregister()
      modifies this`stopServer, this`suggestion, this`bank
      ensures stopServer && suggestion == None && bank == []
    {
      stopServer := true;
      suggestion := None;
      bank := [];
    }
  }
}
