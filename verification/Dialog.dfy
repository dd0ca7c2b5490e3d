/**
 The auth dialog documents of internal/playermsg/dialogdoc.go: visibility, roles, the built-in documents,
 the validator and the conversion of legacy documents.
 */
module Dialog {
  import opened Wrappers
  import opened Strings

  // Screens.
  const LOGIN := "login"
  const REGISTER := "register"
  const PROFILE_CREATE := "profile_create"
  const PROFILE_SELECT := "profile_select"

  // Visibility conditions.
  const ALWAYS := "always"
  const AUTH_REQUIRED := "auth_required"
  const PREMIUM_PASSTHROUGH := "premium_passthrough"
  const PREMIUM_UNVERIFIED := "premium_unverified"
  const WHEN_ERROR := "error"

  // Element kinds.
  const TEXT := "text"
  const ITEM := "item"
  const BOOLEAN := "boolean"
  const OPTION := "option"
  const RANGE := "range"

  // Roles.
  const PASSWORD := "password"
  const CONFIRM := "confirm"
  const PROFILE_NAME := "profile_name"
  const PROFILE_CHOICE := "profile_choice"

  // Actions.
  const SUBMIT := "submit"
  const OPEN_URL := "open_url"
  const COPY := "copy_to_clipboard"
  const OPEN_SCREEN := "open_screen"

  const WAIT_FOR_RESPONSE := "wait_for_response"
  const AFTER_NONE := "none"

  // Limits.
  const MAX_TEXT := 1024
  const MAX_TITLE := 256
  const MAX_WIDTH := 1024
  const MAX_BODY := 12
  const MAX_INPUTS := 8
  const MAX_BUTTONS := 6
  const MAX_OPTIONS := 16
  const MAX_COLUMNS := 4
  const MAX_MULTILINE := 20
  const MAX_ITEM := 256
  const DEFAULT_TEXT_LENGTH := 32

  datatype Body = Body(id: string, kind: string, when: string, text: string, width: int,
                       item: string, count: int, description: string, height: int)

  datatype OptionDoc = OptionDoc(id: string, display: string, initial: bool)

  datatype Input = Input(id: string, kind: string, role: string, key: string, labelText: string, when: string, width: int,
                         initial: string, maxLength: int, multiline: bool, multilineLines: int,
                         onTrue: string, onFalse: string, options: seq<OptionDoc>,
                         start: real, end: real, step: Option<real>, initialNum: Option<real>)

  datatype Action = Action(kind: string, url: string, value: string, screen: string)

  datatype Button = Button(id: string, labelText: string, tooltip: string, width: int, when: string, action: Action)

  datatype Doc = Doc(version: int, title: string, externalTitle: string, pause: bool, afterAction: string, columns: int,
                     body: seq<Body>, inputs: seq<Input>, buttons: seq<Button>)

  datatype DialogState = DialogState(authRequired: bool, verified: bool, hasError: bool)

  /** The library calls of the validator, about which nothing is assumed. */
  datatype Library = Library(
    byteLength: string -> nat,        // len of a string
    parses: string -> bool,           // ParseMiniMessage returns no error
    isItemID: string -> bool,         // itemIDPattern
    isHttpURL: string -> bool)        // url.Parse, scheme and host

  predicate VisibleWhen(when: string, st: DialogState) {
    if when == "" || when == ALWAYS then true
    else if when == AUTH_REQUIRED then st.authRequired
    else if when == PREMIUM_PASSTHROUGH then !st.authRequired
    else if when == PREMIUM_UNVERIFIED then st.authRequired && !st.verified
    else if when == WHEN_ERROR then st.hasError
    else false
  }

  predicate ValidVisibility(screen: string, when: string) {
    || when in {"", ALWAYS, WHEN_ERROR}
    || (when in {AUTH_REQUIRED, PREMIUM_PASSTHROUGH, PREMIUM_UNVERIFIED} && screen == LOGIN)
  }

  function RequiredRoles(screen: string): seq<string> {
    if screen == REGISTER then [PASSWORD, CONFIRM]
    else if screen == PROFILE_CREATE then [PROFILE_NAME]
    else if screen == PROFILE_SELECT then [PROFILE_CHOICE]
    else [PASSWORD]
  }

  predicate IsRole(role: string) {
    role in {PASSWORD, CONFIRM, PROFILE_NAME, PROFILE_CHOICE}
  }

  function OpenScreenTargets(screen: string): set<string> {
    if screen == PROFILE_SELECT then {PROFILE_CREATE}
    else if screen == PROFILE_CREATE then {PROFILE_SELECT}
    else {}
  }

  predicate FunctionalVisibility(when: string) {
    when in {"", ALWAYS, AUTH_REQUIRED}
  }

  predicate AlwaysVisible(when: string) {
    when in {"", ALWAYS}
  }

  /** `keyPattern`. */
  predicate IsKey(key: string) {
    1 <= |key| <= 32 && forall i :: 0 <= i < |key| ==> 'a' <= key[i] <= 'z' || '0' <= key[i] <= '9' || key[i] == '_'
  }

  /** `validateText` reports nothing. */
  predicate TextOk(lib: Library, value: string, max: nat) {
    lib.byteLength(value) <= max && (TrimSpace(value) == "" || lib.parses(value))
  }

  /** A text that must be there. */
  predicate RequiredText(lib: Library, value: string, max: nat) {
    TrimSpace(value) != "" && TextOk(lib, value, max)
  }

  /** A text that may be blank. */
  predicate OptionalText(lib: Library, value: string, max: nat) {
    TrimSpace(value) == "" || TextOk(lib, value, max)
  }

  /** The payload key of the first input bound to the role. */
  function RoleKey(inputs: seq<Input>, role: string): string {
    if inputs == [] then ""
    else if inputs[0].role == role then TrimSpace(inputs[0].key)
    else RoleKey(inputs[1..], role)
  }

  // ------------------------------------------------------------------ the validator

  datatype List = Bodies | Inputs | Buttons

  /** The keys of the error map; messages are left out. */
  datatype Path =
    | Field(name: string)
    | At(list: List, index: nat, field: string)
    | AtOption(input: nat, option: nat, field: string)
    | RoleCount(role: string)

  function When(bad: bool, p: Path): set<Path> {
    if bad then {p} else {}
  }

  function HeaderErrors(lib: Library, doc: Doc): set<Path> {
    When(!RequiredText(lib, doc.title, MAX_TITLE), Field("title"))
    + When(!OptionalText(lib, doc.externalTitle, MAX_TITLE), Field("external_title"))
    + When(doc.afterAction !in {"", WAIT_FOR_RESPONSE, AFTER_NONE}, Field("after_action"))
    + When(doc.pause && doc.afterAction == AFTER_NONE, Field("pause"))
    + When(doc.columns < 0 || doc.columns > MAX_COLUMNS, Field("columns"))
    + When(|doc.body| > MAX_BODY, Field("body"))
    + When(|doc.inputs| > MAX_INPUTS, Field("inputs"))
    + When(|doc.buttons| == 0 || |doc.buttons| > MAX_BUTTONS, Field("buttons"))
  }

  function BodyErrors(lib: Library, screen: string, i: nat, b: Body): set<Path> {
    When(!ValidVisibility(screen, b.when), At(Bodies, i, "when"))
    + When(b.width < 0 || b.width > MAX_WIDTH || (b.kind == ITEM && b.width > MAX_ITEM), At(Bodies, i, "width"))
    + When(b.kind == TEXT && !RequiredText(lib, b.text, MAX_TEXT), At(Bodies, i, "text"))
    + When(b.kind == ITEM && !lib.isItemID(TrimSpace(b.item)), At(Bodies, i, "item"))
    + When(b.kind == ITEM && (b.count < 0 || b.count > 99), At(Bodies, i, "count"))
    + When(b.kind == ITEM && !OptionalText(lib, b.description, MAX_TEXT), At(Bodies, i, "description"))
    + When(b.kind == ITEM && (b.height < 0 || b.height > MAX_ITEM), At(Bodies, i, "height"))
    + When(b.kind !in {TEXT, ITEM}, At(Bodies, i, "kind"))
  }

  predicate RoleFits(screen: string, input: Input) {
    || input.role == ""
    || (IsRole(input.role) && input.role in RequiredRoles(screen)
        && input.kind == (if input.role == PROFILE_CHOICE then OPTION else TEXT))
  }

  function EffectiveLength(input: Input): int {
    if input.maxLength <= 0 then DEFAULT_TEXT_LENGTH else input.maxLength
  }

  /** The errors of one input, apart from its id, its key's uniqueness and its options. */
  function InputErrors(lib: Library, screen: string, i: nat, x: Input): set<Path> {
    When(!ValidVisibility(screen, x.when) || (IsRole(x.role) && !FunctionalVisibility(x.when)), At(Inputs, i, "when"))
    + When(!RequiredText(lib, x.labelText, MAX_TITLE), At(Inputs, i, "label"))
    + When(x.width < 0 || x.width > MAX_WIDTH, At(Inputs, i, "width"))
    + When(!RoleFits(screen, x), At(Inputs, i, "role"))
    + When(x.kind == TEXT && (x.maxLength < 0 || x.maxLength > 1024), At(Inputs, i, "max_length"))
    + When(x.kind == TEXT && x.initial != "" && |x.initial| > EffectiveLength(x), At(Inputs, i, "initial"))
    + When(x.kind == TEXT && (x.multilineLines < 0 || x.multilineLines > MAX_MULTILINE), At(Inputs, i, "multiline_lines"))
    + When(x.kind == TEXT && x.role != "" && x.multiline, At(Inputs, i, "multiline"))
    + When(x.kind == BOOLEAN && (lib.byteLength(x.onTrue) > MAX_TITLE || lib.byteLength(x.onFalse) > MAX_TITLE), At(Inputs, i, "on_true"))
    + When(x.kind == OPTION && ((|x.options| == 0 && x.role != PROFILE_CHOICE) || |x.options| > MAX_OPTIONS
                                || CountInitial(x.options, |x.options|) > 1), At(Inputs, i, "options"))
    + When(x.kind == RANGE && x.end <= x.start, At(Inputs, i, "end"))
    + When(x.kind == RANGE && x.step.Some? && x.step.value <= 0.0, At(Inputs, i, "step"))
    + When(x.kind == RANGE && x.initialNum.Some? && (x.initialNum.value < x.start || x.initialNum.value > x.end), At(Inputs, i, "initial_num"))
    + When(x.kind !in {TEXT, BOOLEAN, OPTION, RANGE}, At(Inputs, i, "kind"))
  }

  function CountInitial(options: seq<OptionDoc>, n: nat): nat
    requires n <= |options|
  {
    if n == 0 then 0 else CountInitial(options, n - 1) + (if options[n - 1].initial then 1 else 0)
  }

  /** The text at `j` was used by an earlier element. */
  predicate Repeated(ids: seq<string>, j: nat)
    requires j < |ids|
  {
    exists k :: 0 <= k < j && ids[k] == ids[j]
  }

  function OptionIDs(options: seq<OptionDoc>): seq<string> {
    seq(|options|, i requires 0 <= i < |options| => TrimSpace(options[i].id))
  }

  function Keys(inputs: seq<Input>): seq<string> {
    seq(|inputs|, i requires 0 <= i < |inputs| => TrimSpace(inputs[i].key))
  }

  /** An option's id is blank or was used by an earlier option. */
  predicate OptionIDBad(options: seq<OptionDoc>, j: nat)
    requires j < |options|
  {
    OptionIDs(options)[j] == "" || Repeated(OptionIDs(options), j)
  }

  function OptionErrors(lib: Library, i: nat, options: seq<OptionDoc>, n: nat): set<Path>
    requires n <= |options|
  {
    if n == 0 then {}
    else
      OptionErrors(lib, i, options, n - 1)
      + When(OptionIDBad(options, n - 1), AtOption(i, n - 1, "id"))
      + When(!RequiredText(lib, options[n - 1].display, MAX_TITLE), AtOption(i, n - 1, "display"))
  }

  /** A key is malformed or was used by an earlier input. */
  predicate KeyBad(inputs: seq<Input>, i: nat)
    requires i < |inputs|
  {
    !IsKey(Keys(inputs)[i]) || Repeated(Keys(inputs), i)
  }

  function ButtonErrors(lib: Library, screen: string, i: nat, b: Button): set<Path> {
    When(!ValidVisibility(screen, b.when) || (b.action.kind == SUBMIT && !AlwaysVisible(b.when)), At(Buttons, i, "when"))
    + When(!RequiredText(lib, b.labelText, MAX_TITLE), At(Buttons, i, "label"))
    + When(!OptionalText(lib, b.tooltip, MAX_TITLE), At(Buttons, i, "tooltip"))
    + When(b.width < 0 || b.width > MAX_WIDTH, At(Buttons, i, "width"))
    + When(b.action.kind == OPEN_URL && !lib.isHttpURL(TrimSpace(b.action.url)), At(Buttons, i, "action.url"))
    + When(b.action.kind == COPY && TrimSpace(b.action.value) == "", At(Buttons, i, "action.value"))
    + When(b.action.kind == OPEN_SCREEN && b.action.screen !in OpenScreenTargets(screen), At(Buttons, i, "action.screen"))
    + When(b.action.kind !in {SUBMIT, OPEN_URL, COPY, OPEN_SCREEN}, At(Buttons, i, "action.kind"))
  }

  function BodyListErrors(lib: Library, screen: string, bs: seq<Body>, n: nat): set<Path>
    requires n <= |bs|
  {
    if n == 0 then {} else BodyListErrors(lib, screen, bs, n - 1) + BodyErrors(lib, screen, n - 1, bs[n - 1])
  }

  function UnionUpTo(sets: seq<set<Path>>, n: nat): set<Path>
    requires n <= |sets|
  {
    if n == 0 then {} else UnionUpTo(sets, n - 1) + sets[n - 1]
  }

  function InputErrorSets(lib: Library, screen: string, xs: seq<Input>): seq<set<Path>> {
    seq(|xs|, i requires 0 <= i < |xs| => AllInputErrors(lib, screen, i, xs[i], KeyBad(xs, i)))
  }

  function InputListErrors(lib: Library, screen: string, xs: seq<Input>, n: nat): set<Path>
    requires n <= |xs|
  {
    UnionUpTo(InputErrorSets(lib, screen, xs), n)
  }

  function AllInputErrors(lib: Library, screen: string, i: nat, x: Input, keyBad: bool): set<Path> {
    InputErrors(lib, screen, i, x) + When(keyBad, At(Inputs, i, "key"))
    + (if x.kind == OPTION then OptionErrors(lib, i, x.options, |x.options|) else {})
  }

  function ButtonListErrors(lib: Library, screen: string, bs: seq<Button>, n: nat): set<Path>
    requires n <= |bs|
  {
    if n == 0 then {} else ButtonListErrors(lib, screen, bs, n - 1) + ButtonErrors(lib, screen, n - 1, bs[n - 1])
  }

  /** Where an element stands, and its id. */
  datatype Named = Named(list: List, index: nat, id: string)

  function Names(doc: Doc): seq<Named> {
    seq(|doc.body|, i requires 0 <= i < |doc.body| => Named(Bodies, i, TrimSpace(doc.body[i].id)))
    + seq(|doc.inputs|, i requires 0 <= i < |doc.inputs| => Named(Inputs, i, TrimSpace(doc.inputs[i].id)))
    + seq(|doc.buttons|, i requires 0 <= i < |doc.buttons| => Named(Buttons, i, TrimSpace(doc.buttons[i].id)))
  }

  /** An id is blank or was used by an earlier element. */
  predicate IDBad(names: seq<Named>, i: nat)
    requires i < |names|
  {
    names[i].id == "" || exists k :: 0 <= k < i && names[k].id == names[i].id
  }

  function IDErrors(names: seq<Named>, n: nat): set<Path>
    requires n <= |names|
  {
    if n == 0 then {}
    else IDErrors(names, n - 1) + When(IDBad(names, n - 1), At(names[n - 1].list, names[n - 1].index, "id"))
  }

  function CountRole(xs: seq<Input>, role: string, n: nat): nat
    requires n <= |xs|
  {
    if n == 0 then 0 else CountRole(xs, role, n - 1) + (if xs[n - 1].role == role then 1 else 0)
  }

  function CountAction(bs: seq<Button>, kinds: set<string>, n: nat): nat
    requires n <= |bs|
  {
    if n == 0 then 0 else CountAction(bs, kinds, n - 1) + (if bs[n - 1].action.kind in kinds then 1 else 0)
  }

  /** A required role that is not bound exactly once, or another that is bound more than once. */
  predicate RoleBad(screen: string, xs: seq<Input>, role: string) {
    if role in RequiredRoles(screen) then CountRole(xs, role, |xs|) != 1 else CountRole(xs, role, |xs|) > 1
  }

  function BadRoles(screen: string, xs: seq<Input>): set<string> {
    set role | role in {PASSWORD, CONFIRM, PROFILE_NAME, PROFILE_CHOICE} && RoleBad(screen, xs, role)
  }

  function RoleErrors(roles: set<string>): set<Path> {
    set role | role in roles :: RoleCount(role)
  }

  function FlowErrors(doc: Doc): set<Path> {
    When(CountAction(doc.buttons, {SUBMIT}, |doc.buttons|) == 0 && |doc.buttons| > 0, Field("buttons"))
    + When(CountAction(doc.buttons, {OPEN_URL, COPY}, |doc.buttons|) > 0 && doc.afterAction in {"", WAIT_FOR_RESPONSE},
           Field("after_action"))
  }

  /** The keys of the map that `ValidateDialog` returns. */
  function DialogErrors(lib: Library, screen: string, doc: Doc): set<Path> {
    HeaderErrors(lib, doc)
    + IDErrors(Names(doc), |Names(doc)|)
    + BodyListErrors(lib, screen, doc.body, |doc.body|)
    + InputListErrors(lib, screen, doc.inputs, |doc.inputs|)
    + ButtonListErrors(lib, screen, doc.buttons, |doc.buttons|)
    + FlowErrors(doc)
    + RoleErrors(BadRoles(screen, doc.inputs))
  }

  // ------------------------------------------------------------------ the loops

  /** The ids seen so far are those of the first `n` elements that have one. */
  ghost predicate SeenIDs(names: seq<Named>, n: nat, seen: set<string>) {
    n <= |names| && forall id :: id in seen <==> id != "" && exists k :: 0 <= k < n && names[k].id == id
  }

  /** `checkID` for the next element. */
  method CheckID(ghost names: seq<Named>, ghost n: nat, name: Named, seen: set<string>, errs: set<Path>)
    returns (seen': set<string>, errs': set<Path>)
    requires n < |names| && names[n] == name && SeenIDs(names, n, seen)
    ensures SeenIDs(names, n + 1, seen')
    ensures errs' == errs + When(IDBad(names, n), At(name.list, name.index, "id"))
  {
    seen', errs' := seen, errs;
    if name.id == "" {
      errs' := errs' + {At(name.list, name.index, "id")};
      return;
    }
    if name.id in seen {
      errs' := errs' + {At(name.list, name.index, "id")};
    }
    seen' := seen' + {name.id};
  }

  method CheckIDs(names: seq<Named>) returns (errs: set<Path>)
    ensures errs == IDErrors(names, |names|)
  {
    errs := {};
    var seen: set<string> := {};
    for i := 0 to |names|
      invariant SeenIDs(names, i, seen) && errs == IDErrors(names, i)
    {
      seen, errs := CheckID(names, i, names[i], seen, errs);
    }
  }

  /** The texts seen are those of the first `n` elements. */
  ghost predicate SeenTexts(ids: seq<string>, n: nat, seen: set<string>) {
    n <= |ids| && forall id :: id in seen <==> exists k :: 0 <= k < n && ids[k] == id
  }

  /** The source's `seen` maps: which texts were used by an earlier element. */
  method FindRepeats(ids: seq<string>) returns (repeated: seq<bool>)
    ensures |repeated| == |ids| && forall j :: 0 <= j < |ids| ==> (repeated[j] <==> Repeated(ids, j))
  {
    repeated := [];
    var seen: set<string> := {};
    for j := 0 to |ids|
      invariant SeenTexts(ids, j, seen)
      invariant |repeated| == j && forall k :: 0 <= k < j ==> (repeated[k] <==> Repeated(ids, k))
    {
      repeated := repeated + [ids[j] in seen];
      seen := seen + {ids[j]};
    }
  }

  method CheckOptions(lib: Library, i: nat, options: seq<OptionDoc>) returns (errs: set<Path>)
    ensures errs == OptionErrors(lib, i, options, |options|)
  {
    errs := {};
    var ids := OptionIDs(options);
    var repeated := FindRepeats(ids);
    for j := 0 to |options|
      invariant errs == OptionErrors(lib, i, options, j)
    {
      assert OptionIDBad(options, j) <==> ids[j] == "" || repeated[j];
      errs := CheckOption(lib, i, j, ids[j] == "" || repeated[j], options[j].display, errs);
      NextOption(lib, i, options, j);
    }
  }

  method CheckOption(lib: Library, i: nat, j: nat, idBad: bool, display: string, errs: set<Path>) returns (errs': set<Path>)
    ensures errs' == errs + When(idBad, AtOption(i, j, "id"))
                     + When(!RequiredText(lib, display, MAX_TITLE), AtOption(i, j, "display"))
  {
    errs' := errs + When(idBad, AtOption(i, j, "id"));
    errs' := errs' + When(!RequiredText(lib, display, MAX_TITLE), AtOption(i, j, "display"));
  }

  lemma NextOption(lib: Library, i: nat, options: seq<OptionDoc>, j: nat)
    requires j < |options|
    ensures OptionErrors(lib, i, options, j + 1)
         == OptionErrors(lib, i, options, j) + When(OptionIDBad(options, j), AtOption(i, j, "id"))
            + When(!RequiredText(lib, options[j].display, MAX_TITLE), AtOption(i, j, "display"))
  {
  }

  function CountOf(roleCount: map<string, nat>, role: string): nat {
    if role in roleCount then roleCount[role] else 0
  }

  /** `roleCount` counts the known roles among the first `n` inputs. */
  ghost predicate Counts(xs: seq<Input>, n: nat, roleCount: map<string, nat>) {
    && n <= |xs|
    && (forall role :: IsRole(role) ==> CountOf(roleCount, role) == CountRole(xs, role, n))
    && (forall role :: role in roleCount ==> IsRole(role))
  }

  method CountRoles(xs: seq<Input>) returns (roleCount: map<string, nat>)
    ensures Counts(xs, |xs|, roleCount)
  {
    roleCount := map[];
    for i := 0 to |xs|
      invariant Counts(xs, i, roleCount)
    {
      var role := xs[i].role;
      if IsRole(role) {
        roleCount := roleCount[role := CountOf(roleCount, role) + 1];
      }
    }
  }

  ghost predicate BadKeysOf(xs: seq<Input>, bad: seq<bool>) {
    |bad| == |xs| && forall i :: 0 <= i < |xs| ==> (bad[i] <==> KeyBad(xs, i))
  }

  method FindBadKeys(xs: seq<Input>) returns (bad: seq<bool>)
    ensures BadKeysOf(xs, bad)
  {
    var keys := Keys(xs);
    var repeated := FindRepeats(keys);
    bad := seq(|xs|, i requires 0 <= i < |xs| => !IsKey(keys[i]) || repeated[i]);
  }

  method CheckInput(lib: Library, screen: string, xs: seq<Input>, i: nat, bad: seq<bool>, ghost sets: seq<set<Path>>)
    returns (errs: set<Path>)
    requires i < |xs| && BadKeysOf(xs, bad) && sets == InputErrorSets(lib, screen, xs)
    ensures errs == sets[i]
  {
    errs := InputErrors(lib, screen, i, xs[i]) + When(bad[i], At(Inputs, i, "key"));
    var optionErrs: set<Path> := {};
    if xs[i].kind == OPTION {
      optionErrs := CheckOptions(lib, i, xs[i].options);
    }
    errs := errs + optionErrs;
  }

  method CheckInputs(lib: Library, screen: string, xs: seq<Input>) returns (errs: set<Path>)
    ensures errs == InputListErrors(lib, screen, xs, |xs|)
  {
    errs := {};
    var bad := FindBadKeys(xs);
    ghost var sets := InputErrorSets(lib, screen, xs);
    for i := 0 to |xs|
      invariant errs == UnionUpTo(sets, i)
    {
      var own := CheckInput(lib, screen, xs, i, bad, sets);
      errs := errs + own;
    }
  }

  /** The two loops over roles; the second walks the map in an arbitrary order. */
  method CheckRoles(screen: string, xs: seq<Input>, roleCount: map<string, nat>) returns (bad: set<string>)
    requires Counts(xs, |xs|, roleCount)
    ensures bad == BadRoles(screen, xs)
  {
    bad := {};
    var required := RequiredRoles(screen);
    for i := 0 to |required|
      invariant forall role :: role in bad <==> role in required[..i] && CountOf(roleCount, role) != 1
    {
      if CountOf(roleCount, required[i]) != 1 {
        bad := bad + {required[i]};
      }
    }
    assert required[..|required|] == required;
    ghost var first := bad;
    var left := roleCount.Keys;
    while left != {}
      invariant left <= roleCount.Keys
      invariant forall role :: role in bad <==> role in first || (role in roleCount && role !in left && roleCount[role] > 1)
      decreases left
    {
      var role :| role in left;
      if roleCount[role] > 1 {
        bad := bad + {role};
      }
      left := left - {role};
    }
    forall role
      ensures role in bad <==> role in BadRoles(screen, xs)
    {
      RequiredAreRoles(screen, role);
      if IsRole(role) {
        assert CountOf(roleCount, role) == CountRole(xs, role, |xs|);
      }
    }
  }

  lemma RequiredAreRoles(screen: string, role: string)
    ensures role in RequiredRoles(screen) ==> IsRole(role)
  {
  }

  method CheckBodies(lib: Library, screen: string, bs: seq<Body>) returns (errs: set<Path>)
    ensures errs == BodyListErrors(lib, screen, bs, |bs|)
  {
    errs := {};
    for i := 0 to |bs|
      invariant errs == BodyListErrors(lib, screen, bs, i)
    {
      errs := errs + BodyErrors(lib, screen, i, bs[i]);
    }
  }

  method CheckButtons(lib: Library, screen: string, bs: seq<Button>) returns (errs: set<Path>, submits: nat, clientActions: nat)
    ensures errs == ButtonListErrors(lib, screen, bs, |bs|)
    ensures submits == CountAction(bs, {SUBMIT}, |bs|) && clientActions == CountAction(bs, {OPEN_URL, COPY}, |bs|)
  {
    errs, submits, clientActions := {}, 0, 0;
    for i := 0 to |bs|
      invariant errs == ButtonListErrors(lib, screen, bs, i)
      invariant submits == CountAction(bs, {SUBMIT}, i) && clientActions == CountAction(bs, {OPEN_URL, COPY}, i)
    {
      errs := errs + ButtonErrors(lib, screen, i, bs[i]);
      ActionsDiffer(bs, i);
      var kind := bs[i].action.kind;
      if kind == SUBMIT {
        submits := submits + 1;
      } else if kind == OPEN_URL || kind == COPY {
        clientActions := clientActions + 1;
      }
    }
  }

  lemma ActionsDiffer(bs: seq<Button>, i: nat)
    requires i < |bs|
    ensures CountAction(bs, {SUBMIT}, i + 1) == CountAction(bs, {SUBMIT}, i) + (if bs[i].action.kind == SUBMIT then 1 else 0)
    ensures CountAction(bs, {OPEN_URL, COPY}, i + 1)
         == CountAction(bs, {OPEN_URL, COPY}, i) + (if bs[i].action.kind == OPEN_URL || bs[i].action.kind == COPY then 1 else 0)
    ensures SUBMIT != OPEN_URL && SUBMIT != COPY
  {
  }

  method ValidateDialog(lib: Library, screen: string, doc: Doc) returns (errs: set<Path>)
    ensures errs == DialogErrors(lib, screen, doc)
  {
    errs := HeaderErrors(lib, doc);
    var idErrs := CheckIDs(Names(doc));
    var bodyErrs := CheckBodies(lib, screen, doc.body);
    var inputErrs := CheckInputs(lib, screen, doc.inputs);
    var roleCount := CountRoles(doc.inputs);
    var buttonErrs, submits, clientActions := CheckButtons(lib, screen, doc.buttons);
    var noSubmit := submits == 0 && |doc.buttons| > 0;
    var stuck := clientActions > 0 && doc.afterAction in {"", WAIT_FOR_RESPONSE};
    var flowErrs := When(noSubmit, Field("buttons")) + When(stuck, Field("after_action"));
    var bad := CheckRoles(screen, doc.inputs, roleCount);
    errs := errs + idErrs + bodyErrs + inputErrs + buttonErrs + flowErrs + RoleErrors(bad);
  }
}
