/**
 What an accepted dialog document guarantees to the player, and what the built-in and converted legacy
 documents of internal/playermsg/dialogdoc.go guarantee without being validated.
 */
module DialogMeaning {
  import opened Wrappers
  import opened Strings
  import opened Dialog

  /** Whatever the state of the login, some visible button submits. */
  ghost predicate CanAlwaysSubmit(doc: Doc) {
    forall st: DialogState :: CanSubmit(doc, st)
  }

  ghost predicate CanSubmit(doc: Doc, st: DialogState) {
    exists i :: 0 <= i < |doc.buttons| && doc.buttons[i].action.kind == SUBMIT && VisibleWhen(doc.buttons[i].when, st)
  }

  /** Exactly one input is bound to the role. */
  ghost predicate BoundOnce(inputs: seq<Input>, role: string) {
    exists i :: 0 <= i < |inputs| && BoundAt(inputs, role, i)
  }

  ghost predicate BoundAt(inputs: seq<Input>, role: string, i: nat) {
    i < |inputs| && inputs[i].role == role && forall j :: 0 <= j < |inputs| && inputs[j].role == role ==> j == i
  }

  /** A bound input has a role of this screen, the right kind, and shows whenever the flow asks for it. */
  ghost predicate RoleInputWorks(screen: string, x: Input) {
    && x.role in RequiredRoles(screen)
    && x.kind == (if x.role == PROFILE_CHOICE then OPTION else TEXT)
    && forall st: DialogState :: st.authRequired || screen != LOGIN ==> VisibleWhen(x.when, st)
  }

  /** The player can always submit, and every role the flow needs is bound once and reachable. */
  ghost predicate FlowWorks(screen: string, doc: Doc) {
    && CanAlwaysSubmit(doc)
    && (forall role :: role in RequiredRoles(screen) ==> BoundOnce(doc.inputs, role))
    && (forall i :: 0 <= i < |doc.inputs| && doc.inputs[i].role != "" ==> RoleInputWorks(screen, doc.inputs[i]))
  }

  // ------------------------------------------------------------------ reading the error sets

  lemma {:induction false} ButtonErrorsListed(lib: Library, screen: string, bs: seq<Button>, n: nat, i: nat)
    requires i < n <= |bs|
    ensures ButtonErrors(lib, screen, i, bs[i]) <= ButtonListErrors(lib, screen, bs, n)
  {
    if i < n - 1 {
      ButtonErrorsListed(lib, screen, bs, n - 1, i);
    }
  }

  lemma AllContainsParts(lib: Library, screen: string, i: nat, x: Input, keyBad: bool)
    ensures InputErrors(lib, screen, i, x) <= AllInputErrors(lib, screen, i, x, keyBad)
    ensures When(keyBad, At(Inputs, i, "key")) <= AllInputErrors(lib, screen, i, x, keyBad)
  {
  }

  lemma {:induction false} EmptyUnion(sets: seq<set<Path>>, n: nat, i: nat)
    requires i < n <= |sets| && UnionUpTo(sets, n) == {}
    ensures sets[i] == {}
  {
    UnionEmpty(UnionUpTo(sets, n - 1), sets[n - 1]);
    if i < n - 1 {
      EmptyUnion(sets, n - 1, i);
    }
  }

  lemma UnionEmpty(a: set<Path>, b: set<Path>)
    ensures a + b == {} <==> a == {} && b == {}
  {
  }

  lemma NoInputErrors(lib: Library, screen: string, xs: seq<Input>, i: nat)
    requires i < |xs| && InputListErrors(lib, screen, xs, |xs|) == {}
    ensures AllInputErrors(lib, screen, i, xs[i], KeyBad(xs, i)) == {}
  {
    EmptyUnion(InputErrorSets(lib, screen, xs), |xs|, i);
  }

  lemma {:induction false} IDErrorsListed(names: seq<Named>, n: nat, i: nat)
    requires i < n <= |names|
    ensures When(IDBad(names, i), At(names[i].list, names[i].index, "id")) <= IDErrors(names, n)
  {
    if i < n - 1 {
      IDErrorsListed(names, n - 1, i);
    }
  }

  lemma {:induction false} CountedAction(bs: seq<Button>, kinds: set<string>, n: nat)
    requires n <= |bs|
    ensures CountAction(bs, kinds, n) > 0 <==> exists i :: 0 <= i < n && bs[i].action.kind in kinds
  {
    if n > 0 {
      CountedAction(bs, kinds, n - 1);
    }
  }

  /** A count of one is a single binding, and any other count is none. */
  lemma {:induction false} CountedRole(xs: seq<Input>, role: string, n: nat)
    requires n <= |xs|
    ensures CountRole(xs, role, n) == 0 <==> forall i :: 0 <= i < n ==> xs[i].role != role
    ensures CountRole(xs, role, n) == 1 <==> BoundOnce(xs[..n], role)
    decreases n
  {
    if n > 0 {
      CountedRole(xs, role, n - 1);
      var a, b := xs[..n - 1], xs[..n];
      assert b == a + [xs[n - 1]];
      if xs[n - 1].role == role {
        if CountRole(xs, role, n - 1) == 0 {
          assert BoundAt(b, role, n - 1);
        } else {
          var j :| 0 <= j < n - 1 && xs[j].role == role;
          assert b[j].role == role && b[n - 1].role == role;
        }
      } else {
        if BoundOnce(a, role) {
          var i :| 0 <= i < |a| && BoundAt(a, role, i);
          assert BoundAt(b, role, i);
        }
        if BoundOnce(b, role) {
          var i :| 0 <= i < |b| && BoundAt(b, role, i);
          assert BoundAt(a, role, i);
        }
      }
    }
  }

  // ------------------------------------------------------------------ accepted documents

  lemma AcceptedParts(lib: Library, screen: string, doc: Doc)
    requires DialogErrors(lib, screen, doc) == {}
    ensures HeaderErrors(lib, doc) == {} && FlowErrors(doc) == {}
    ensures IDErrors(Names(doc), |Names(doc)|) == {}
    ensures ButtonListErrors(lib, screen, doc.buttons, |doc.buttons|) == {}
    ensures InputListErrors(lib, screen, doc.inputs, |doc.inputs|) == {}
    ensures RoleErrors(BadRoles(screen, doc.inputs)) == {}
  {
  }

  lemma HeaderSaysEnough(lib: Library, doc: Doc)
    requires HeaderErrors(lib, doc) == {}
    ensures |doc.buttons| > 0 && doc.afterAction in {"", WAIT_FOR_RESPONSE, AFTER_NONE}
  {
    assert Field("buttons") !in HeaderErrors(lib, doc);
    assert Field("after_action") !in HeaderErrors(lib, doc);
  }

  lemma FlowSaysEnough(doc: Doc)
    requires FlowErrors(doc) == {} && |doc.buttons| > 0
    ensures CountAction(doc.buttons, {SUBMIT}, |doc.buttons|) > 0
    ensures CountAction(doc.buttons, {OPEN_URL, COPY}, |doc.buttons|) > 0 ==> doc.afterAction !in {"", WAIT_FOR_RESPONSE}
  {
    assert Field("buttons") !in FlowErrors(doc);
    assert Field("after_action") !in FlowErrors(doc);
  }

  lemma SubmitIsVisible(lib: Library, screen: string, i: nat, b: Button)
    requires ButtonErrors(lib, screen, i, b) == {} && b.action.kind == SUBMIT
    ensures AlwaysVisible(b.when)
  {
    assert At(Buttons, i, "when") !in ButtonErrors(lib, screen, i, b);
  }

  lemma AcceptedButtons(lib: Library, screen: string, doc: Doc)
    requires DialogErrors(lib, screen, doc) == {}
    ensures CanAlwaysSubmit(doc)
    ensures forall i :: 0 <= i < |doc.buttons| && doc.buttons[i].action.kind in {OPEN_URL, COPY} ==> doc.afterAction == AFTER_NONE
  {
    AcceptedParts(lib, screen, doc);
    HeaderSaysEnough(lib, doc);
    FlowSaysEnough(doc);
    CountedAction(doc.buttons, {SUBMIT}, |doc.buttons|);
    CountedAction(doc.buttons, {OPEN_URL, COPY}, |doc.buttons|);
    var i :| 0 <= i < |doc.buttons| && doc.buttons[i].action.kind in {SUBMIT};
    ButtonErrorsListed(lib, screen, doc.buttons, |doc.buttons|, i);
    SubmitIsVisible(lib, screen, i, doc.buttons[i]);
    forall st: DialogState
      ensures CanSubmit(doc, st)
    {
      assert VisibleWhen(doc.buttons[i].when, st);
    }
  }

  lemma BoundInputWorks(lib: Library, screen: string, i: nat, x: Input)
    requires InputErrors(lib, screen, i, x) == {} && x.role != ""
    ensures RoleInputWorks(screen, x)
  {
    assert At(Inputs, i, "role") !in InputErrors(lib, screen, i, x);
    assert At(Inputs, i, "when") !in InputErrors(lib, screen, i, x);
    assert RoleFits(screen, x);
    assert FunctionalVisibility(x.when) && ValidVisibility(screen, x.when);
  }

  lemma AcceptedInput(lib: Library, screen: string, doc: Doc, i: nat)
    requires DialogErrors(lib, screen, doc) == {} && i < |doc.inputs|
    ensures doc.inputs[i].role != "" ==> RoleInputWorks(screen, doc.inputs[i])
    ensures !KeyBad(doc.inputs, i)
  {
    AcceptedParts(lib, screen, doc);
    NoInputErrors(lib, screen, doc.inputs, i);
    AllContainsParts(lib, screen, i, doc.inputs[i], KeyBad(doc.inputs, i));
    assert At(Inputs, i, "key") !in When(KeyBad(doc.inputs, i), At(Inputs, i, "key"));
    if doc.inputs[i].role != "" {
      BoundInputWorks(lib, screen, i, doc.inputs[i]);
    }
  }

  lemma AcceptedRole(lib: Library, screen: string, doc: Doc, role: string)
    requires DialogErrors(lib, screen, doc) == {} && role in RequiredRoles(screen)
    ensures BoundOnce(doc.inputs, role)
  {
    AcceptedParts(lib, screen, doc);
    RequiredAreRoles(screen, role);
    assert RoleCount(role) !in RoleErrors(BadRoles(screen, doc.inputs));
    assert !RoleBad(screen, doc.inputs, role);
    CountedRole(doc.inputs, role, |doc.inputs|);
    assert doc.inputs[..|doc.inputs|] == doc.inputs;
  }

  /** An accepted document works: in every state the player can submit, and every role is bound once and reachable. */
  lemma AcceptedDialogWorks(lib: Library, screen: string, doc: Doc)
    requires DialogErrors(lib, screen, doc) == {}
    ensures FlowWorks(screen, doc)
    ensures forall i :: 0 <= i < |doc.buttons| && doc.buttons[i].action.kind in {OPEN_URL, COPY} ==> doc.afterAction == AFTER_NONE
  {
    AcceptedButtons(lib, screen, doc);
    forall i | 0 <= i < |doc.inputs| && doc.inputs[i].role != ""
      ensures RoleInputWorks(screen, doc.inputs[i])
    {
      AcceptedInput(lib, screen, doc, i);
    }
    forall role | role in RequiredRoles(screen)
      ensures BoundOnce(doc.inputs, role)
    {
      AcceptedRole(lib, screen, doc, role);
    }
  }

  lemma {:induction false} RoleKeyIsFirst(inputs: seq<Input>, role: string, i: nat)
    requires i < |inputs| && inputs[i].role == role && forall j :: 0 <= j < i ==> inputs[j].role != role
    ensures RoleKey(inputs, role) == TrimSpace(inputs[i].key)
    decreases |inputs|
  {
    if i > 0 {
      RoleKeyIsFirst(inputs[1..], role, i - 1);
    }
  }

  /** In an accepted document every element has its own id. */
  lemma AcceptedIDsAreUnique(lib: Library, screen: string, doc: Doc, a: nat, b: nat)
    requires DialogErrors(lib, screen, doc) == {} && a < b < |Names(doc)|
    ensures Names(doc)[a].id != Names(doc)[b].id
  {
    var names := Names(doc);
    AcceptedParts(lib, screen, doc);
    IDErrorsListed(names, |names|, b);
    assert At(names[b].list, names[b].index, "id") !in When(IDBad(names, b), At(names[b].list, names[b].index, "id"));
  }

  /** Keys are well formed and pairwise different. */
  lemma AcceptedKeysAreUnique(lib: Library, screen: string, doc: Doc, a: nat, b: nat)
    requires DialogErrors(lib, screen, doc) == {} && a < b < |doc.inputs|
    ensures IsKey(Keys(doc.inputs)[a]) && IsKey(Keys(doc.inputs)[b])
    ensures Keys(doc.inputs)[a] != Keys(doc.inputs)[b]
  {
    AcceptedInput(lib, screen, doc, a);
    AcceptedInput(lib, screen, doc, b);
    assert !Repeated(Keys(doc.inputs), b);
  }

  /** `RoleKey` gives the key of the one input bound to the role. */
  lemma AcceptedRoleKey(lib: Library, screen: string, doc: Doc, i: nat)
    requires DialogErrors(lib, screen, doc) == {} && i < |doc.inputs| && doc.inputs[i].role != ""
    ensures RoleKey(doc.inputs, doc.inputs[i].role) == TrimSpace(doc.inputs[i].key)
  {
    AcceptedInput(lib, screen, doc, i);
    AcceptedRole(lib, screen, doc, doc.inputs[i].role);
    RoleKeyIsFirst(doc.inputs, doc.inputs[i].role, i);
  }

  // ------------------------------------------------------------------ built-in and legacy documents

  const SCREENS := {LOGIN, REGISTER, PROFILE_CREATE, PROFILE_SELECT}

  /** The built-in wording, looked up by short names; no property depends on it. */
  type Wording = string -> string

  function TextBody(w: Wording, id: string, when: string): Body {
    Body(id, TEXT, when, w(id), 240, "", 0, "", 0)
  }

  function TextInput(w: Wording, id: string, role: string, key: string, maxLength: int, when: string): Input {
    Input(id, TEXT, role, key, w(id), when, 240, "", maxLength, false, 0, "", "", [], 0.0, 0.0, None, None)
  }

  function DefaultBody(w: Wording, screen: string): seq<Body> {
    [TextBody(w, "intro", ""), TextBody(w, "error", WHEN_ERROR)]
    + if screen in {PROFILE_CREATE, PROFILE_SELECT, REGISTER} then []
      else [TextBody(w, "premium-unverified", PREMIUM_UNVERIFIED), TextBody(w, "premium-passthrough", PREMIUM_PASSTHROUGH)]
  }

  function DefaultInputList(w: Wording, screen: string): seq<Input> {
    if screen == PROFILE_CREATE then [TextInput(w, "profile-name", PROFILE_NAME, "profile_name", 16, "")]
    else if screen == PROFILE_SELECT then
      [TextInput(w, "profile-choice", PROFILE_CHOICE, "profile_choice", 0, "").(kind := OPTION)]
    else if screen == REGISTER then
      [TextInput(w, "password", PASSWORD, "password", 128, ""), TextInput(w, "confirm", CONFIRM, "confirm_password", 128, "")]
    else [TextInput(w, "password", PASSWORD, "password", 128, AUTH_REQUIRED)]
  }

  function DefaultButtons(w: Wording, screen: string): seq<Button> {
    [Button("submit", w("submit"), "", 0, "", Action(SUBMIT, "", "", ""))]
    + if screen == PROFILE_SELECT then [Button("create-new", w("create-new"), "", 0, "", Action(OPEN_SCREEN, "", "", PROFILE_CREATE))]
      else []
  }

  function DefaultDialog(w: Wording, screen: string): Doc {
    Doc(2, w("title"), "", false, "", if screen == PROFILE_SELECT then 2 else 0,
        DefaultBody(w, screen), DefaultInputList(w, screen), DefaultButtons(w, screen))
  }

  datatype LegacyBlock = LegacyBlock(id: string, kind: string, text: string, width: int, when: string)

  /** A version 1 document: fixed password and submit slots. */
  datatype Legacy = Legacy(title: string, body: seq<LegacyBlock>, passwordLabel: string, confirmLabel: string,
                           inputsWidth: int, submitLabel: string, submitTooltip: string, submitWidth: int)

  function ConvertBlock(b: LegacyBlock): Body {
    Body(b.id, TEXT, if b.kind == "error" then WHEN_ERROR else b.when, b.text, b.width, "", 0, "", 0)
  }

  function ConvertInput(l: Legacy, x: Input): Input {
    var labelled :=
      if x.role == PASSWORD && TrimSpace(l.passwordLabel) != "" then x.(labelText := l.passwordLabel)
      else if x.role == CONFIRM && TrimSpace(l.confirmLabel) != "" then x.(labelText := l.confirmLabel)
      else x;
    if l.inputsWidth > 0 then labelled.(width := l.inputsWidth) else labelled
  }

  function ConvertSubmit(l: Legacy, b: Button): Button {
    b.(labelText := if TrimSpace(l.submitLabel) != "" then l.submitLabel else b.labelText,
       tooltip := l.submitTooltip, width := l.submitWidth)
  }

  function ConvertBlocks(blocks: seq<LegacyBlock>): seq<Body> {
    seq(|blocks|, i requires 0 <= i < |blocks| => ConvertBlock(blocks[i]))
  }

  function ConvertAll(l: Legacy, xs: seq<Input>): seq<Input> {
    seq(|xs|, i requires 0 <= i < |xs| => ConvertInput(l, xs[i]))
  }

  /** The legacy branch of `NormalizeDialog`, starting from the built-in document. */
  function ConvertLegacy(doc: Doc, l: Legacy): Doc {
    doc.(title := if TrimSpace(l.title) != "" then l.title else doc.title,
         body := if |l.body| > 0 then ConvertBlocks(l.body) else doc.body,
         inputs := ConvertAll(l, doc.inputs),
         buttons := if |doc.buttons| > 0 then doc.buttons[0 := ConvertSubmit(l, doc.buttons[0])] else doc.buttons)
  }

  method ConvertBodies(blocks: seq<LegacyBlock>) returns (body: seq<Body>)
    ensures body == ConvertBlocks(blocks)
  {
    body := [];
    for i := 0 to |blocks|
      invariant |body| == i && forall k :: 0 <= k < i ==> body[k] == ConvertBlock(blocks[k])
    {
      body := body + [ConvertBlock(blocks[i])];
    }
  }

  method ConvertInputs(l: Legacy, xs: seq<Input>) returns (inputs: seq<Input>)
    ensures inputs == ConvertAll(l, xs)
  {
    inputs := xs;
    for i := 0 to |inputs|
      invariant |inputs| == |xs|
      invariant forall k :: 0 <= k < i ==> inputs[k] == ConvertInput(l, xs[k])
      invariant forall k :: i <= k < |xs| ==> inputs[k] == xs[k]
    {
      var x := inputs[i];
      if x.role == PASSWORD && TrimSpace(l.passwordLabel) != "" {
        x := x.(labelText := l.passwordLabel);
      }
      if x.role == CONFIRM && TrimSpace(l.confirmLabel) != "" {
        x := x.(labelText := l.confirmLabel);
      }
      if l.inputsWidth > 0 {
        x := x.(width := l.inputsWidth);
      }
      assert PASSWORD != CONFIRM && x == ConvertInput(l, xs[i]);
      inputs := inputs[i := x];
    }
  }

  /** The edits of the legacy branch, in the source's order. */
  method NormalizeLegacy(builtIn: Doc, l: Legacy) returns (doc: Doc)
    ensures doc == ConvertLegacy(builtIn, l)
  {
    doc := builtIn;
    if TrimSpace(l.title) != "" {
      doc := doc.(title := l.title);
    }
    if |l.body| > 0 {
      var body := ConvertBodies(l.body);
      doc := doc.(body := body);
    }
    var inputs := ConvertInputs(l, doc.inputs);
    doc := doc.(inputs := inputs);
    if |doc.buttons| > 0 {
      doc := doc.(buttons := doc.buttons[0 := ConvertSubmit(l, doc.buttons[0])]);
    }
  }

  /** The visibility of the built-in inputs. */
  function DefaultWhen(screen: string): string {
    if screen in {REGISTER, PROFILE_CREATE, PROFILE_SELECT} then "" else AUTH_REQUIRED
  }

  /** The inputs bind the screen's required roles once each, in order, with the right kind and the built-in visibility. */
  ghost predicate BuiltInInputs(screen: string, xs: seq<Input>) {
    var roles := RequiredRoles(screen);
    && |xs| == |roles| > 0
    && forall i :: 0 <= i < |xs| ==>
         && xs[i].role == roles[i] && xs[i].when == DefaultWhen(screen)
         && xs[i].kind == (if roles[i] == PROFILE_CHOICE then OPTION else TEXT)
  }

  lemma DefaultInputs(w: Wording, screen: string)
    ensures BuiltInInputs(screen, DefaultInputList(w, screen))
  {
  }

  lemma RolesAreDistinct(screen: string)
    ensures var roles := RequiredRoles(screen); forall i, j :: 0 <= i < j < |roles| ==> roles[i] != roles[j]
    ensures "" !in RequiredRoles(screen)
  {
  }

  /** Converting an input changes its label and width, never what the flow depends on. */
  lemma ConversionKeepsInput(l: Legacy, x: Input)
    ensures var c := ConvertInput(l, x); c.role == x.role && c.kind == x.kind && c.when == x.when && c.key == x.key && c.id == x.id
  {
  }

  lemma ConversionKeepsInputs(screen: string, l: Legacy, xs: seq<Input>)
    requires BuiltInInputs(screen, xs)
    ensures BuiltInInputs(screen, ConvertAll(l, xs))
  {
    forall i | 0 <= i < |xs|
      ensures ConvertAll(l, xs)[i].role == xs[i].role && ConvertAll(l, xs)[i].when == xs[i].when
              && ConvertAll(l, xs)[i].kind == xs[i].kind
    {
      ConversionKeepsInput(l, xs[i]);
    }
  }

  lemma InputsBindRoles(screen: string, xs: seq<Input>)
    requires BuiltInInputs(screen, xs)
    ensures forall role :: role in RequiredRoles(screen) ==> BoundOnce(xs, role)
  {
    RolesAreDistinct(screen);
    var roles := RequiredRoles(screen);
    forall role | role in roles
      ensures BoundOnce(xs, role)
    {
      var i :| 0 <= i < |roles| && roles[i] == role;
      assert BoundAt(xs, role, i);
    }
  }

  /** A visibility that shows in every state in which the screen needs its roles. */
  ghost predicate Reaches(screen: string, when: string) {
    forall st: DialogState :: st.authRequired || screen != LOGIN ==> VisibleWhen(when, st)
  }

  /** The built-in visibility reaches those states on exactly the screens that exist. */
  lemma DefaultWhenReaches(screen: string)
    ensures Reaches(screen, DefaultWhen(screen)) <==> screen in SCREENS
  {
    if screen !in SCREENS {
      assert !VisibleWhen(DefaultWhen(screen), DialogState(false, false, false));
    }
  }

  lemma BuiltInInputsWork(screen: string, xs: seq<Input>)
    requires BuiltInInputs(screen, xs)
    ensures (forall i :: 0 <= i < |xs| && xs[i].role != "" ==> RoleInputWorks(screen, xs[i])) <==> screen in SCREENS
  {
    DefaultWhenReaches(screen);
    RolesAreDistinct(screen);
    assert xs[0].role == RequiredRoles(screen)[0];
    assert xs[0].role in RequiredRoles(screen);
    if screen in SCREENS {
      forall i | 0 <= i < |xs|
        ensures RoleInputWorks(screen, xs[i])
      {
        assert xs[i].role == RequiredRoles(screen)[i];
      }
    } else if RoleInputWorks(screen, xs[0]) {
      assert Reaches(screen, xs[0].when);
    }
  }

  lemma FirstButtonSubmits(doc: Doc)
    requires |doc.buttons| > 0 && doc.buttons[0].action.kind == SUBMIT && doc.buttons[0].when == ""
    ensures CanAlwaysSubmit(doc)
  {
    forall st: DialogState
      ensures CanSubmit(doc, st)
    {
      assert VisibleWhen(doc.buttons[0].when, st);
    }
  }

  /** A converted document's flow works on exactly the screens that exist: elsewhere its password field may hide. */
  lemma ConvertedDialogWorks(w: Wording, screen: string, l: Legacy)
    ensures FlowWorks(screen, ConvertLegacy(DefaultDialog(w, screen), l)) <==> screen in SCREENS
  {
    var c := ConvertLegacy(DefaultDialog(w, screen), l);
    DefaultInputs(w, screen);
    ConversionKeepsInputs(screen, l, DefaultInputList(w, screen));
    InputsBindRoles(screen, c.inputs);
    BuiltInInputsWork(screen, c.inputs);
    FirstButtonSubmits(c);
  }
}
