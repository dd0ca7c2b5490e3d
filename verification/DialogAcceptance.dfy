/**
 Exactly which documents the validator of internal/playermsg/dialogdoc.go accepts.
 */
module DialogAcceptance {
  import opened Wrappers
  import opened Strings
  import opened Dialog
  import opened DialogMeaning
  import opened DialogDefaults
  import opened DialogConversion

  // ------------------------------------------------------------------ acceptable elements

  predicate Blank(s: string) {
    TrimSpace(s) == ""
  }

  /** A text of at most `max` bytes that parses, unless it is blank. */
  predicate Readable(lib: Library, s: string, max: nat) {
    lib.byteLength(s) <= max && (Blank(s) || lib.parses(s))
  }

  predicate Caption(lib: Library, s: string, max: nat) {
    !Blank(s) && Readable(lib, s, max)
  }

  predicate OptionalCaption(lib: Library, s: string, max: nat) {
    Blank(s) || Readable(lib, s, max)
  }

  /** A condition the screen knows; only the login screen has an authentication state. */
  predicate Condition(screen: string, when: string) {
    || when == "" || when == "always" || when == "error"
    || (screen == "login" && (when == "auth_required" || when == "premium_passthrough" || when == "premium_unverified"))
  }

  predicate Between(low: int, v: int, high: int) {
    low <= v <= high
  }

  predicate GoodBody(lib: Library, screen: string, b: Body) {
    && Condition(screen, b.when) && Between(0, b.width, 1024)
    && if b.kind == "text" then Caption(lib, b.text, 1024)
       else
         && b.kind == "item" && lib.isItemID(TrimSpace(b.item)) && Between(0, b.count, 99)
         && OptionalCaption(lib, b.description, 1024) && b.width <= 256 && Between(0, b.height, 256)
  }

  /** The roles of a screen. */
  function RolesOf(screen: string): set<string> {
    if screen == "register" then {"password", "confirm"}
    else if screen == "profile_create" then {"profile_name"}
    else if screen == "profile_select" then {"profile_choice"}
    else {"password"}
  }

  /** A bound input has a role of the screen and its kind, and shows whenever it may be needed. */
  predicate GoodRole(screen: string, x: Input) {
    x.role != "" ==>
      && x.role in RolesOf(screen) && x.kind == (if x.role == "profile_choice" then "option" else "text")
      && (x.when == "" || x.when == "always" || x.when == "auth_required")
  }

  predicate GoodKey(key: string) {
    1 <= |key| <= 32 && forall i :: 0 <= i < |key| ==> 'a' <= key[i] <= 'z' || '0' <= key[i] <= '9' || key[i] == '_'
  }

  predicate GoodText(x: Input) {
    && Between(0, x.maxLength, 1024) && |x.initial| <= (if x.maxLength == 0 then 32 else x.maxLength)
    && Between(0, x.multilineLines, 20) && (x.role != "" ==> !x.multiline)
  }

  predicate GoodOptions(lib: Library, x: Input) {
    && (x.options == [] ==> x.role == "profile_choice") && |x.options| <= 16
    && (forall i, j :: 0 <= i < j < |x.options| ==> !(x.options[i].initial && x.options[j].initial))
    && (forall i :: 0 <= i < |x.options| ==> !Blank(x.options[i].id) && Caption(lib, x.options[i].display, 256))
    && (forall i, j :: 0 <= i < j < |x.options| ==> TrimSpace(x.options[i].id) != TrimSpace(x.options[j].id))
  }

  predicate GoodRange(x: Input) {
    && x.start < x.end && (x.step.Some? ==> x.step.value > 0.0)
    && (x.initialNum.Some? ==> x.start <= x.initialNum.value <= x.end)
  }

  predicate GoodKind(lib: Library, x: Input) {
    || (x.kind == "text" && GoodText(x))
    || (x.kind == "boolean" && lib.byteLength(x.onTrue) <= 256 && lib.byteLength(x.onFalse) <= 256)
    || (x.kind == "option" && GoodOptions(lib, x))
    || (x.kind == "range" && GoodRange(x))
  }

  predicate GoodInput(lib: Library, screen: string, x: Input) {
    && Condition(screen, x.when) && Caption(lib, x.labelText, 256) && Between(0, x.width, 1024)
    && GoodRole(screen, x) && GoodKind(lib, x)
  }

  predicate GoodButton(lib: Library, screen: string, b: Button) {
    && Condition(screen, b.when) && Between(0, b.width, 1024)
    && Caption(lib, b.labelText, 256) && OptionalCaption(lib, b.tooltip, 256)
    && (|| (b.action.kind == "submit" && (b.when == "" || b.when == "always"))
        || (b.action.kind == "open_url" && lib.isHttpURL(TrimSpace(b.action.url)))
        || (b.action.kind == "copy_to_clipboard" && !Blank(b.action.value))
        || (b.action.kind == "open_screen"
            && (|| (screen == "profile_select" && b.action.screen == "profile_create")
                || (screen == "profile_create" && b.action.screen == "profile_select"))))
  }

  predicate GoodHeader(lib: Library, doc: Doc) {
    && Caption(lib, doc.title, 256) && OptionalCaption(lib, doc.externalTitle, 256)
    && doc.afterAction in {"", "wait_for_response", "none"} && !(doc.pause && doc.afterAction == "none")
    && Between(0, doc.columns, 4) && |doc.body| <= 12 && |doc.inputs| <= 8 && 1 <= |doc.buttons| <= 6
  }

  /** Somebody can submit, and nobody waits behind a button that the server does not see. */
  predicate GoodFlow(doc: Doc) {
    && (exists i :: 0 <= i < |doc.buttons| && doc.buttons[i].action.kind == "submit")
    && (forall i :: 0 <= i < |doc.buttons| && doc.buttons[i].action.kind in {"open_url", "copy_to_clipboard"} ==>
          doc.afterAction !in {"", "wait_for_response"})
  }

  ghost predicate GoodRoles(screen: string, xs: seq<Input>) {
    forall role :: role in RolesOf(screen) ==> BoundOnce(xs, role)
  }

  /** No id is blank, and none is used twice. */
  predicate GoodIDs(ids: seq<string>) {
    && (forall i :: 0 <= i < |ids| ==> ids[i] != "")
    && (forall i, j :: 0 <= i < j < |ids| ==> ids[i] != ids[j])
  }

  predicate GoodKeys(keys: seq<string>) {
    && (forall i :: 0 <= i < |keys| ==> GoodKey(keys[i]))
    && (forall i, j :: 0 <= i < j < |keys| ==> keys[i] != keys[j])
  }

  ghost predicate IsAcceptable(lib: Library, screen: string, doc: Doc) {
    && GoodHeader(lib, doc) && GoodIDs(TrimmedIDs(doc)) && GoodKeys(Keys(doc.inputs))
    && (forall i :: 0 <= i < |doc.body| ==> GoodBody(lib, screen, doc.body[i]))
    && (forall i :: 0 <= i < |doc.inputs| ==> GoodInput(lib, screen, doc.inputs[i]))
    && (forall i :: 0 <= i < |doc.buttons| ==> GoodButton(lib, screen, doc.buttons[i]))
    && GoodFlow(doc) && GoodRoles(screen, doc.inputs)
  }

  // ------------------------------------------------------------------ one element

  lemma TextsAgree(lib: Library, s: string, max: nat)
    ensures RequiredText(lib, s, max) <==> Caption(lib, s, max)
    ensures OptionalText(lib, s, max) <==> OptionalCaption(lib, s, max)
  {
  }

  lemma ConditionsAgree(screen: string, when: string)
    ensures ValidVisibility(screen, when) <==> Condition(screen, when)
    ensures FunctionalVisibility(when) <==> when == "" || when == "always" || when == "auth_required"
    ensures AlwaysVisible(when) <==> when == "" || when == "always"
  {
  }

  lemma HeaderIsGoodIff(lib: Library, doc: Doc)
    ensures HeaderErrors(lib, doc) == {} <==> GoodHeader(lib, doc)
  {
    TextsAgree(lib, doc.title, 256);
    TextsAgree(lib, doc.externalTitle, 256);
    var e := HeaderErrors(lib, doc);
    if e == {} {
      assert Field("title") !in e && Field("external_title") !in e && Field("after_action") !in e && Field("pause") !in e;
      assert Field("columns") !in e && Field("body") !in e && Field("inputs") !in e && Field("buttons") !in e;
    }
  }

  lemma BodyIsGoodIff(lib: Library, screen: string, i: nat, b: Body)
    ensures BodyErrors(lib, screen, i, b) == {} <==> GoodBody(lib, screen, b)
  {
    ConditionsAgree(screen, b.when);
    TextsAgree(lib, b.text, 1024);
    TextsAgree(lib, b.description, 1024);
    var e := BodyErrors(lib, screen, i, b);
    assert TEXT != ITEM;
    if e == {} {
      assert At(Bodies, i, "when") !in e && At(Bodies, i, "width") !in e && At(Bodies, i, "text") !in e && At(Bodies, i, "item") !in e;
      assert At(Bodies, i, "count") !in e && At(Bodies, i, "description") !in e && At(Bodies, i, "height") !in e && At(Bodies, i, "kind") !in e;
    }
  }

  lemma ButtonIsGoodIff(lib: Library, screen: string, i: nat, b: Button)
    ensures ButtonErrors(lib, screen, i, b) == {} <==> GoodButton(lib, screen, b)
  {
    ConditionsAgree(screen, b.when);
    TextsAgree(lib, b.labelText, 256);
    TextsAgree(lib, b.tooltip, 256);
    var e := ButtonErrors(lib, screen, i, b);
    if e == {} {
      assert At(Buttons, i, "when") !in e && At(Buttons, i, "label") !in e && At(Buttons, i, "tooltip") !in e;
      assert At(Buttons, i, "width") !in e && At(Buttons, i, "action.url") !in e && At(Buttons, i, "action.value") !in e;
      assert At(Buttons, i, "action.screen") !in e && At(Buttons, i, "action.kind") !in e;
    }
  }

  // ------------------------------------------------------------------ inputs

  lemma {:induction false} CountedInitial(options: seq<OptionDoc>, n: nat)
    requires n <= |options|
    ensures CountInitial(options, n) == 0 <==> forall i :: 0 <= i < n ==> !options[i].initial
    ensures CountInitial(options, n) <= 1 <==> forall i, j :: 0 <= i < j < n ==> !(options[i].initial && options[j].initial)
    decreases n
  {
    if n > 0 {
      CountedInitial(options, n - 1);
    }
  }

  predicate GoodOption(lib: Library, options: seq<OptionDoc>, j: nat)
    requires j < |options|
  {
    && !Blank(options[j].id) && Caption(lib, options[j].display, 256)
    && forall k :: 0 <= k < j ==> TrimSpace(options[k].id) != TrimSpace(options[j].id)
  }

  lemma OptionIsGoodIff(lib: Library, i: nat, options: seq<OptionDoc>, j: nat)
    requires j < |options|
    ensures ErrorsOfOption(lib, i, options, j) == {} <==> GoodOption(lib, options, j)
  {
    TextsAgree(lib, options[j].display, 256);
    UnionEmpty(When(OptionIDBad(options, j), AtOption(i, j, "id")),
               When(!RequiredText(lib, options[j].display, MAX_TITLE), AtOption(i, j, "display")));
    WhenIsEmpty(OptionIDBad(options, j), AtOption(i, j, "id"));
    WhenIsEmpty(!RequiredText(lib, options[j].display, MAX_TITLE), AtOption(i, j, "display"));
    var ids := OptionIDs(options);
    assert forall k :: 0 <= k <= j ==> ids[k] == TrimSpace(options[k].id);
  }

  lemma WhenIsEmpty(bad: bool, p: Path)
    ensures When(bad, p) == {} <==> !bad
  {
    if bad {
      assert p in When(bad, p);
    }
  }

  function ErrorsOfOption(lib: Library, i: nat, options: seq<OptionDoc>, j: nat): set<Path>
    requires j < |options|
  {
    When(OptionIDBad(options, j), AtOption(i, j, "id")) + When(!RequiredText(lib, options[j].display, MAX_TITLE), AtOption(i, j, "display"))
  }

  lemma Regrouped(a: set<Path>, b: set<Path>, c: set<Path>)
    ensures a + b + c == a + (b + c)
  {
  }

  lemma OneOption(lib: Library, i: nat, options: seq<OptionDoc>, j: nat)
    requires j < |options|
    ensures OptionErrors(lib, i, options, j + 1) == OptionErrors(lib, i, options, j) + ErrorsOfOption(lib, i, options, j)
  {
    NextOption(lib, i, options, j);
    Regrouped(OptionErrors(lib, i, options, j), When(OptionIDBad(options, j), AtOption(i, j, "id")),
              When(!RequiredText(lib, options[j].display, MAX_TITLE), AtOption(i, j, "display")));
  }

  /** Growing unions stay empty exactly while nothing is added. */
  lemma {:induction false} SumsEmptyIff(sums: seq<set<Path>>, sets: seq<set<Path>>, n: nat)
    requires |sums| == |sets| + 1 && n <= |sets| && sums[0] == {}
    requires forall k :: 0 <= k < |sets| ==> sums[k + 1] == sums[k] + sets[k]
    ensures sums[n] == {} <==> forall j :: 0 <= j < n ==> sets[j] == {}
    decreases n
  {
    if n > 0 {
      SumsEmptyIff(sums, sets, n - 1);
      assert sums[n - 1 + 1] == sums[n - 1] + sets[n - 1];
    }
  }

  function SumsOf(lib: Library, i: nat, options: seq<OptionDoc>): seq<set<Path>> {
    seq(|options| + 1, n requires 0 <= n <= |options| => OptionErrors(lib, i, options, n))
  }

  function SetsOf(lib: Library, i: nat, options: seq<OptionDoc>): seq<set<Path>> {
    seq(|options|, k requires 0 <= k < |options| => ErrorsOfOption(lib, i, options, k))
  }

  lemma SumsAt(lib: Library, i: nat, options: seq<OptionDoc>, n: nat)
    requires n <= |options|
    ensures SumsOf(lib, i, options)[n] == OptionErrors(lib, i, options, n)
  {
  }

  lemma SetsAt(lib: Library, i: nat, options: seq<OptionDoc>, k: nat)
    requires k < |options|
    ensures SetsOf(lib, i, options)[k] == ErrorsOfOption(lib, i, options, k)
  {
  }

  lemma SumAt(lib: Library, i: nat, options: seq<OptionDoc>, k: nat)
    requires k < |options|
    ensures SumsOf(lib, i, options)[k + 1] == SumsOf(lib, i, options)[k] + SetsOf(lib, i, options)[k]
  {
    SumsAt(lib, i, options, k);
    SumsAt(lib, i, options, k + 1);
    SetsAt(lib, i, options, k);
    OneOption(lib, i, options, k);
  }

  lemma SetAt(lib: Library, i: nat, options: seq<OptionDoc>, k: nat)
    requires k < |options|
    ensures SetsOf(lib, i, options)[k] == {} <==> GoodOption(lib, options, k)
  {
    OptionIsGoodIff(lib, i, options, k);
  }

  lemma SumsStart(lib: Library, i: nat, options: seq<OptionDoc>)
    ensures SumsOf(lib, i, options)[0] == {} && SumsOf(lib, i, options)[|options|] == OptionErrors(lib, i, options, |options|)
  {
  }

  lemma OptionsAreGoodIff(lib: Library, i: nat, options: seq<OptionDoc>)
    ensures OptionErrors(lib, i, options, |options|) == {} <==> forall j :: 0 <= j < |options| ==> GoodOption(lib, options, j)
  {
    var sums, sets := SumsOf(lib, i, options), SetsOf(lib, i, options);
    SumsStart(lib, i, options);
    forall k | 0 <= k < |options|
      ensures sums[k + 1] == sums[k] + sets[k]
    {
      SumAt(lib, i, options, k);
    }
    SumsEmptyIff(sums, sets, |options|);
    forall k | 0 <= k < |options|
      ensures sets[k] == {} <==> GoodOption(lib, options, k)
    {
      SetAt(lib, i, options, k);
    }
  }

  /** The errors of an input that concern its kind. */
  function KindErrors(lib: Library, i: nat, x: Input): set<Path> {
    When(x.kind == TEXT && (x.maxLength < 0 || x.maxLength > 1024), At(Inputs, i, "max_length"))
    + When(x.kind == TEXT && x.initial != "" && |x.initial| > EffectiveLength(x), At(Inputs, i, "initial"))
    + When(x.kind == TEXT && (x.multilineLines < 0 || x.multilineLines > MAX_MULTILINE), At(Inputs, i, "multiline_lines"))
    + When(x.kind == TEXT && x.role != "" && x.multiline, At(Inputs, i, "multiline"))
    + When(x.kind == BOOLEAN && (lib.byteLength(x.onTrue) > MAX_TITLE || lib.byteLength(x.onFalse) > MAX_TITLE), At(Inputs, i, "on_true"))
    + When(x.kind == OPTION && ((|x.options| == 0 && x.role != PROFILE_CHOICE) || |x.options| > MAX_OPTIONS
                                || CountInitial(x.options, |x.options|) > 1), At(Inputs, i, "options"))
    + When(x.kind == RANGE && x.end <= x.start, At(Inputs, i, "end"))
    + When(x.kind == RANGE && x.step.Some? && x.step.value <= 0.0, At(Inputs, i, "step"))
    + When(x.kind == RANGE && x.initialNum.Some? && (x.initialNum.value < x.start || x.initialNum.value > x.end), At(Inputs, i, "initial_num"))
    + When(x.kind !in {TEXT, BOOLEAN, OPTION, RANGE}, At(Inputs, i, "kind"))
  }

  function CommonErrors(lib: Library, screen: string, i: nat, x: Input): set<Path> {
    When(!ValidVisibility(screen, x.when) || (IsRole(x.role) && !FunctionalVisibility(x.when)), At(Inputs, i, "when"))
    + When(!RequiredText(lib, x.labelText, MAX_TITLE), At(Inputs, i, "label"))
    + When(x.width < 0 || x.width > MAX_WIDTH, At(Inputs, i, "width"))
    + When(!RoleFits(screen, x), At(Inputs, i, "role"))
  }

  lemma InputErrorsSplit(lib: Library, screen: string, i: nat, x: Input)
    ensures InputErrors(lib, screen, i, x) == CommonErrors(lib, screen, i, x) + KindErrors(lib, i, x)
  {
  }

  lemma RolesAgree(screen: string, role: string)
    ensures role in RequiredRoles(screen) <==> role in RolesOf(screen)
    ensures role in RolesOf(screen) ==> IsRole(role) && role != ""
  {
  }

  lemma CommonIsGoodIff(lib: Library, screen: string, i: nat, x: Input)
    ensures CommonErrors(lib, screen, i, x) == {}
       <==> Condition(screen, x.when) && Caption(lib, x.labelText, 256) && Between(0, x.width, 1024) && GoodRole(screen, x)
  {
    ConditionsAgree(screen, x.when);
    TextsAgree(lib, x.labelText, 256);
    RolesAgree(screen, x.role);
    var e := CommonErrors(lib, screen, i, x);
    if e == {} {
      assert At(Inputs, i, "when") !in e && At(Inputs, i, "label") !in e && At(Inputs, i, "width") !in e && At(Inputs, i, "role") !in e;
    }
  }

  /** What an option input must meet beside its options' ids and texts. */
  predicate GoodChoice(x: Input) {
    && (x.options == [] ==> x.role == "profile_choice") && |x.options| <= 16
    && forall i, j :: 0 <= i < j < |x.options| ==> !(x.options[i].initial && x.options[j].initial)
  }

  predicate GoodKindAlone(lib: Library, x: Input) {
    || (x.kind == "text" && GoodText(x))
    || (x.kind == "boolean" && lib.byteLength(x.onTrue) <= 256 && lib.byteLength(x.onFalse) <= 256)
    || (x.kind == "option" && GoodChoice(x))
    || (x.kind == "range" && GoodRange(x))
  }

  lemma KindsDiffer()
    ensures "text" != "boolean" && "text" != "option" && "text" != "range"
    ensures "boolean" != "option" && "boolean" != "range" && "option" != "range"
  {
    assert "text"[0] != "boolean"[0] && "text"[0] != "option"[0] && "text"[0] != "range"[0];
    assert "boolean"[0] != "option"[0] && "boolean"[0] != "range"[0] && "option"[0] != "range"[0];
  }

  lemma KindIsGoodIff(lib: Library, i: nat, x: Input)
    ensures KindErrors(lib, i, x) == {} <==> GoodKindAlone(lib, x)
  {
    KindsDiffer();
    CountedInitial(x.options, |x.options|);
    var e := KindErrors(lib, i, x);
    if e == {} {
      assert At(Inputs, i, "max_length") !in e && At(Inputs, i, "initial") !in e && At(Inputs, i, "multiline_lines") !in e;
      assert At(Inputs, i, "multiline") !in e && At(Inputs, i, "on_true") !in e && At(Inputs, i, "options") !in e;
      assert At(Inputs, i, "end") !in e && At(Inputs, i, "step") !in e && At(Inputs, i, "initial_num") !in e && At(Inputs, i, "kind") !in e;
    }
  }

  lemma OptionsTogether(lib: Library, x: Input)
    requires x.kind == "option"
    ensures GoodOptions(lib, x) <==> GoodChoice(x) && forall j :: 0 <= j < |x.options| ==> GoodOption(lib, x.options, j)
  {
    if GoodOptions(lib, x) {
      forall j | 0 <= j < |x.options|
        ensures GoodOption(lib, x.options, j)
      {
      }
    }
    if forall j :: 0 <= j < |x.options| ==> GoodOption(lib, x.options, j) {
      forall i | 0 <= i < |x.options|
        ensures !Blank(x.options[i].id) && Caption(lib, x.options[i].display, 256)
      {
        assert GoodOption(lib, x.options, i);
      }
      forall i, j | 0 <= i < j < |x.options|
        ensures TrimSpace(x.options[i].id) != TrimSpace(x.options[j].id)
      {
        assert GoodOption(lib, x.options, j);
      }
    }
  }

  lemma InputIsGoodIff(lib: Library, screen: string, i: nat, x: Input, keyBad: bool)
    ensures AllInputErrors(lib, screen, i, x, keyBad) == {} <==> GoodInput(lib, screen, x) && !keyBad
  {
    InputErrorsSplit(lib, screen, i, x);
    CommonIsGoodIff(lib, screen, i, x);
    KindIsGoodIff(lib, i, x);
    var own, key := InputErrors(lib, screen, i, x), When(keyBad, At(Inputs, i, "key"));
    var options := if x.kind == OPTION then OptionErrors(lib, i, x.options, |x.options|) else {};
    UnionEmpty(CommonErrors(lib, screen, i, x), KindErrors(lib, i, x));
    UnionEmpty(own, key);
    UnionEmpty(own + key, options);
    WhenIsEmpty(keyBad, At(Inputs, i, "key"));
    KindsDiffer();
    if x.kind == OPTION {
      OptionsAreGoodIff(lib, i, x.options);
      OptionsTogether(lib, x);
    }
  }

  // ------------------------------------------------------------------ lists

  lemma KeyIsGoodIff(inputs: seq<Input>, i: nat)
    requires i < |inputs|
    ensures KeyBad(inputs, i) <==> !GoodKey(Keys(inputs)[i]) || Repeated(Keys(inputs), i)
  {
  }

  lemma KeysAreGoodIff(inputs: seq<Input>)
    ensures GoodKeys(Keys(inputs)) <==> forall i :: 0 <= i < |inputs| ==> !KeyBad(inputs, i)
  {
    var keys := Keys(inputs);
    forall i | 0 <= i < |inputs|
      ensures KeyBad(inputs, i) <==> !GoodKey(keys[i]) || Repeated(keys, i)
    {
      KeyIsGoodIff(inputs, i);
    }
    NoneRepeatedIff(keys);
  }

  lemma NoneRepeatedIff(ids: seq<string>)
    ensures (forall i, j :: 0 <= i < j < |ids| ==> ids[i] != ids[j]) <==> forall j :: 0 <= j < |ids| ==> !Repeated(ids, j)
  {
    if forall j :: 0 <= j < |ids| ==> !Repeated(ids, j) {
      forall i, j | 0 <= i < j < |ids|
        ensures ids[i] != ids[j]
      {
        assert !Repeated(ids, j);
      }
    }
  }

  lemma IDsAreGoodIff(doc: Doc)
    ensures IDErrors(Names(doc), |Names(doc)|) == {} <==> GoodIDs(TrimmedIDs(doc))
  {
    var ids := TrimmedIDs(doc);
    NoIDErrorsIff(doc);
    NoneRepeatedIff(ids);
    assert (forall i :: 0 <= i < |ids| ==> !Bad(ids, i))
      <==> (forall i :: 0 <= i < |ids| ==> ids[i] != "") && (forall i :: 0 <= i < |ids| ==> !Repeated(ids, i)) by {
      if forall i :: 0 <= i < |ids| ==> !Bad(ids, i) {
        forall i | 0 <= i < |ids|
          ensures ids[i] != "" && !Repeated(ids, i)
        {
          assert !Bad(ids, i);
        }
      }
    }
  }

  lemma BadBodyShows(lib: Library, screen: string, bs: seq<Body>, i: nat)
    requires i < |bs| && BodyListErrors(lib, screen, bs, |bs|) == {}
    ensures GoodBody(lib, screen, bs[i])
  {
    BodyErrorsListed(lib, screen, bs, |bs|, i);
    BodyIsGoodIff(lib, screen, i, bs[i]);
  }

  lemma BodiesAreGoodIff(lib: Library, screen: string, bs: seq<Body>)
    ensures BodyListErrors(lib, screen, bs, |bs|) == {} <==> forall i :: 0 <= i < |bs| ==> GoodBody(lib, screen, bs[i])
  {
    if BodyListErrors(lib, screen, bs, |bs|) == {} {
      forall i | 0 <= i < |bs|
        ensures GoodBody(lib, screen, bs[i])
      {
        BadBodyShows(lib, screen, bs, i);
      }
    } else if forall i :: 0 <= i < |bs| ==> GoodBody(lib, screen, bs[i]) {
      forall i | 0 <= i < |bs|
        ensures BodyErrors(lib, screen, i, bs[i]) == {}
      {
        BodyIsGoodIff(lib, screen, i, bs[i]);
      }
      NoBodyErrors(lib, screen, bs, |bs|);
    }
  }

  lemma BadButtonShows(lib: Library, screen: string, bs: seq<Button>, i: nat)
    requires i < |bs| && ButtonListErrors(lib, screen, bs, |bs|) == {}
    ensures GoodButton(lib, screen, bs[i])
  {
    ButtonErrorsListed(lib, screen, bs, |bs|, i);
    ButtonIsGoodIff(lib, screen, i, bs[i]);
  }

  lemma ButtonsAreGoodIff(lib: Library, screen: string, bs: seq<Button>)
    ensures ButtonListErrors(lib, screen, bs, |bs|) == {} <==> forall i :: 0 <= i < |bs| ==> GoodButton(lib, screen, bs[i])
  {
    if ButtonListErrors(lib, screen, bs, |bs|) == {} {
      forall i | 0 <= i < |bs|
        ensures GoodButton(lib, screen, bs[i])
      {
        BadButtonShows(lib, screen, bs, i);
      }
    } else if forall i :: 0 <= i < |bs| ==> GoodButton(lib, screen, bs[i]) {
      forall i | 0 <= i < |bs|
        ensures ButtonErrors(lib, screen, i, bs[i]) == {}
      {
        ButtonIsGoodIff(lib, screen, i, bs[i]);
      }
      NoButtonErrors(lib, screen, bs, |bs|);
    }
  }

  lemma InputsAreGoodIff(lib: Library, screen: string, xs: seq<Input>)
    ensures InputListErrors(lib, screen, xs, |xs|) == {}
       <==> GoodKeys(Keys(xs)) && forall i :: 0 <= i < |xs| ==> GoodInput(lib, screen, xs[i])
  {
    var sets := InputErrorSets(lib, screen, xs);
    forall i | 0 <= i < |xs|
      ensures sets[i] == {} <==> GoodInput(lib, screen, xs[i]) && !KeyBad(xs, i)
    {
      InputIsGoodIff(lib, screen, i, xs[i], KeyBad(xs, i));
    }
    NoUnionIff(sets);
    KeysAreGoodIff(xs);
    EachAndEach(lib, screen, xs, sets);
  }

  lemma EachAndEach(lib: Library, screen: string, xs: seq<Input>, sets: seq<set<Path>>)
    requires |sets| == |xs| && forall i :: 0 <= i < |xs| ==> (sets[i] == {} <==> GoodInput(lib, screen, xs[i]) && !KeyBad(xs, i))
    ensures (forall i :: 0 <= i < |sets| ==> sets[i] == {})
       <==> (forall i :: 0 <= i < |xs| ==> GoodInput(lib, screen, xs[i])) && (forall i :: 0 <= i < |xs| ==> !KeyBad(xs, i))
  {
    if forall i :: 0 <= i < |sets| ==> sets[i] == {} {
      forall i | 0 <= i < |xs|
        ensures GoodInput(lib, screen, xs[i]) && !KeyBad(xs, i)
      {
        assert sets[i] == {};
      }
    }
  }

  // ------------------------------------------------------------------ the document

  lemma FlowIsGoodIff(doc: Doc)
    requires doc.buttons != []
    ensures FlowErrors(doc) == {} <==> GoodFlow(doc)
  {
    var bs := doc.buttons;
    CountedAction(bs, {SUBMIT}, |bs|);
    CountedAction(bs, {OPEN_URL, COPY}, |bs|);
    var a := When(CountAction(bs, {SUBMIT}, |bs|) == 0 && |bs| > 0, Field("buttons"));
    var b := When(CountAction(bs, {OPEN_URL, COPY}, |bs|) > 0 && doc.afterAction in {"", WAIT_FOR_RESPONSE}, Field("after_action"));
    UnionEmpty(a, b);
    WhenIsEmpty(CountAction(bs, {SUBMIT}, |bs|) == 0 && |bs| > 0, Field("buttons"));
    WhenIsEmpty(CountAction(bs, {OPEN_URL, COPY}, |bs|) > 0 && doc.afterAction in {"", WAIT_FOR_RESPONSE}, Field("after_action"));
    SubmitsIff(bs);
  }

  lemma SubmitsIff(bs: seq<Button>)
    ensures (exists i :: 0 <= i < |bs| && bs[i].action.kind in {SUBMIT}) <==> exists i :: 0 <= i < |bs| && bs[i].action.kind == "submit"
  {
    if i :| 0 <= i < |bs| && bs[i].action.kind == "submit" {
      assert bs[i].action.kind in {SUBMIT};
    }
  }

  /** Inputs whose roles are all of the screen bind no other role. */
  lemma RolesAreGoodIff(lib: Library, screen: string, xs: seq<Input>)
    requires forall i :: 0 <= i < |xs| ==> GoodInput(lib, screen, xs[i])
    ensures BadRoles(screen, xs) == {} <==> GoodRoles(screen, xs)
  {
    assert xs[..|xs|] == xs;
    forall role | role in {PASSWORD, CONFIRM, PROFILE_NAME, PROFILE_CHOICE}
      ensures RoleBad(screen, xs, role) <==> role in RolesOf(screen) && !BoundOnce(xs, role)
    {
      RolesAgree(screen, role);
      CountedRole(xs, role, |xs|);
      if role !in RolesOf(screen) {
        assert role != "" by {
          assert role[0] != ' ';
        }
        forall i | 0 <= i < |xs|
          ensures xs[i].role != role
        {
          assert GoodInput(lib, screen, xs[i]);
        }
      }
    }
    if GoodRoles(screen, xs) {
      assert BadRoles(screen, xs) == {};
    } else {
      var role :| role in RolesOf(screen) && !BoundOnce(xs, role);
      RolesAgree(screen, role);
      assert role in BadRoles(screen, xs);
    }
  }

  lemma RoleErrorsIff(roles: set<string>)
    ensures RoleErrors(roles) == {} <==> roles == {}
  {
    if roles != {} {
      var role :| role in roles;
      assert RoleCount(role) in RoleErrors(roles);
    }
  }

  /** All error sets are empty. */
  predicate HasNoErrors(lib: Library, screen: string, doc: Doc) {
    && HeaderErrors(lib, doc) == {} && IDErrors(Names(doc), |Names(doc)|) == {}
    && BodyListErrors(lib, screen, doc.body, |doc.body|) == {}
    && InputListErrors(lib, screen, doc.inputs, |doc.inputs|) == {}
    && ButtonListErrors(lib, screen, doc.buttons, |doc.buttons|) == {}
    && FlowErrors(doc) == {} && RoleErrors(BadRoles(screen, doc.inputs)) == {}
  }

  lemma AllPartsIff(lib: Library, screen: string, doc: Doc)
    ensures DialogErrors(lib, screen, doc) == {} <==> HasNoErrors(lib, screen, doc)
  {
    var h, i := HeaderErrors(lib, doc), IDErrors(Names(doc), |Names(doc)|);
    var b, x := BodyListErrors(lib, screen, doc.body, |doc.body|), InputListErrors(lib, screen, doc.inputs, |doc.inputs|);
    var s, f := ButtonListErrors(lib, screen, doc.buttons, |doc.buttons|), FlowErrors(doc);
    UnionEmpty(h, i);
    UnionEmpty(h + i, b);
    UnionEmpty(h + i + b, x);
    UnionEmpty(h + i + b + x, s);
    UnionEmpty(h + i + b + x + s, f);
    UnionEmpty(h + i + b + x + s + f, RoleErrors(BadRoles(screen, doc.inputs)));
  }

  lemma ElementsAreGoodIff(lib: Library, screen: string, doc: Doc)
    ensures (&& HeaderErrors(lib, doc) == {} && IDErrors(Names(doc), |Names(doc)|) == {}
             && BodyListErrors(lib, screen, doc.body, |doc.body|) == {}
             && InputListErrors(lib, screen, doc.inputs, |doc.inputs|) == {}
             && ButtonListErrors(lib, screen, doc.buttons, |doc.buttons|) == {})
       <==> && GoodHeader(lib, doc) && GoodIDs(TrimmedIDs(doc)) && GoodElements(lib, screen, doc)
  {
    HeaderIsGoodIff(lib, doc);
    IDsAreGoodIff(doc);
    BodiesAreGoodIff(lib, screen, doc.body);
    InputsAreGoodIff(lib, screen, doc.inputs);
    ButtonsAreGoodIff(lib, screen, doc.buttons);
  }

  predicate GoodElements(lib: Library, screen: string, doc: Doc) {
    && GoodKeys(Keys(doc.inputs))
    && (forall i :: 0 <= i < |doc.body| ==> GoodBody(lib, screen, doc.body[i]))
    && (forall i :: 0 <= i < |doc.inputs| ==> GoodInput(lib, screen, doc.inputs[i]))
    && (forall i :: 0 <= i < |doc.buttons| ==> GoodButton(lib, screen, doc.buttons[i]))
  }

  lemma WholeIsGoodIff(lib: Library, screen: string, doc: Doc)
    requires GoodHeader(lib, doc) && GoodElements(lib, screen, doc)
    ensures FlowErrors(doc) == {} && RoleErrors(BadRoles(screen, doc.inputs)) == {} <==> GoodFlow(doc) && GoodRoles(screen, doc.inputs)
  {
    FlowIsGoodIff(doc);
    RoleErrorsIff(BadRoles(screen, doc.inputs));
    RolesAreGoodIff(lib, screen, doc.inputs);
  }

  /** The validator accepts exactly the acceptable documents. */
  lemma AcceptedIff(lib: Library, screen: string, doc: Doc)
    ensures DialogErrors(lib, screen, doc) == {} <==> IsAcceptable(lib, screen, doc)
  {
    AllPartsIff(lib, screen, doc);
    ElementsAreGoodIff(lib, screen, doc);
    if GoodHeader(lib, doc) && GoodElements(lib, screen, doc) {
      WholeIsGoodIff(lib, screen, doc);
    }
  }
}
