/**
 When a converted legacy document of internal/playermsg/dialogdoc.go passes the validator: conditions on the legacy
 document alone, for a built-in wording that fits.
 */
module DialogConversion {
  import opened Strings
  import opened Dialog
  import opened DialogMeaning
  import opened DialogDefaults

  /** A text that replaces a built-in one unless it is blank. */
  predicate Replaces(lib: Library, value: string, max: nat) {
    TrimSpace(value) != "" ==> TextOk(lib, value, max)
  }

  predicate WidthFits(width: int) {
    0 <= width <= MAX_WIDTH
  }

  predicate BlockFits(lib: Library, screen: string, b: LegacyBlock) {
    && RequiredText(lib, b.text, MAX_TEXT) && WidthFits(b.width)
    && (b.kind == "error" || ValidVisibility(screen, b.when))
  }

  function BlockIDs(blocks: seq<LegacyBlock>): seq<string> {
    seq(|blocks|, i requires 0 <= i < |blocks| => TrimSpace(blocks[i].id))
  }

  /** The ids of the built-in inputs and buttons, which conversion keeps. */
  function ElementIDs(screen: string): seq<string> {
    if screen == PROFILE_CREATE then ["profile-name", "submit"]
    else if screen == PROFILE_SELECT then ["profile-choice", "submit", "create-new"]
    else if screen == REGISTER then ["password", "confirm", "submit"]
    else ["password", "submit"]
  }

  /** An id is blank or was used before. */
  predicate Bad(ids: seq<string>, i: nat)
    requires i < |ids|
  {
    ids[i] == "" || Repeated(ids, i)
  }

  /** Body blocks have ids of their own, different from those of the inputs and buttons of the screen. */
  predicate BlockIDsFit(screen: string, ids: seq<string>) {
    forall i :: 0 <= i < |ids| ==> !Bad(ids, i) && ids[i] !in ElementIDs(screen)
  }

  /** The labels that the screen has a place for. */
  predicate LabelsFit(lib: Library, screen: string, l: Legacy) {
    && (screen in {LOGIN, REGISTER} ==> Replaces(lib, l.passwordLabel, MAX_TITLE))
    && (screen == REGISTER ==> Replaces(lib, l.confirmLabel, MAX_TITLE))
  }

  /** What a legacy document must meet. Labels without a place and a negative input width are ignored. */
  predicate LegacyFits(lib: Library, screen: string, l: Legacy) {
    && Replaces(lib, l.title, MAX_TITLE)
    && BlocksFit(lib, screen, l.body)
    && LabelsFit(lib, screen, l) && l.inputsWidth <= MAX_WIDTH
    && SubmitFits(lib, l)
  }

  predicate BlocksFit(lib: Library, screen: string, blocks: seq<LegacyBlock>) {
    && |blocks| <= MAX_BODY && BlockIDsFit(screen, BlockIDs(blocks))
    && forall i :: 0 <= i < |blocks| ==> BlockFits(lib, screen, blocks[i])
  }

  predicate SubmitFits(lib: Library, l: Legacy) {
    Replaces(lib, l.submitLabel, MAX_TITLE) && OptionalText(lib, l.submitTooltip, MAX_TITLE) && WidthFits(l.submitWidth)
  }

  function Converted(w: Wording, screen: string, l: Legacy): Doc {
    ConvertLegacy(DefaultDialog(w, screen), l)
  }

  // ------------------------------------------------------------------ header and body

  lemma HeaderFitsIff(lib: Library, w: Wording, screen: string, l: Legacy)
    requires screen in SCREENS && WordingFits(lib, w)
    ensures HeaderErrors(lib, Converted(w, screen, l)) == {} <==> Replaces(lib, l.title, MAX_TITLE) && |l.body| <= MAX_BODY
  {
    var c := Converted(w, screen, l);
    assert RequiredText(lib, w(LABELS[0]), MAX_TITLE);
    ConvertedCounts(w, screen, l);
    HeaderIff(lib, c);
  }

  lemma ConvertedCounts(w: Wording, screen: string, l: Legacy)
    requires screen in SCREENS
    ensures var c := Converted(w, screen, l);
            && 1 <= |c.inputs| <= 2 && 1 <= |c.buttons| <= 2
            && |c.body| == (if l.body == [] then |DefaultBody(w, screen)| else |l.body|) && |DefaultBody(w, screen)| <= 4
  {
  }

  lemma HeaderIff(lib: Library, c: Doc)
    requires c.externalTitle == "" && c.afterAction == "" && !c.pause && 0 <= c.columns <= 2
    requires 1 <= |c.inputs| <= 2 && 1 <= |c.buttons| <= 2
    ensures HeaderErrors(lib, c) == {} <==> RequiredText(lib, c.title, MAX_TITLE) && |c.body| <= MAX_BODY
  {
    if HeaderErrors(lib, c) == {} {
      assert Field("title") !in HeaderErrors(lib, c);
      assert Field("body") !in HeaderErrors(lib, c);
    }
  }

  lemma BlockFitsIff(lib: Library, screen: string, i: nat, b: LegacyBlock)
    ensures BodyErrors(lib, screen, i, ConvertBlock(b)) == {} <==> BlockFits(lib, screen, b)
  {
    var c := ConvertBlock(b);
    if BodyErrors(lib, screen, i, c) == {} {
      assert At(Bodies, i, "when") !in BodyErrors(lib, screen, i, c);
      assert At(Bodies, i, "width") !in BodyErrors(lib, screen, i, c);
      assert At(Bodies, i, "text") !in BodyErrors(lib, screen, i, c);
    }
  }

  lemma {:induction false} BodyErrorsListed(lib: Library, screen: string, bs: seq<Body>, n: nat, i: nat)
    requires i < n <= |bs| && BodyListErrors(lib, screen, bs, n) == {}
    ensures BodyErrors(lib, screen, i, bs[i]) == {}
  {
    UnionEmpty(BodyListErrors(lib, screen, bs, n - 1), BodyErrors(lib, screen, n - 1, bs[n - 1]));
    if i < n - 1 {
      BodyErrorsListed(lib, screen, bs, n - 1, i);
    }
  }

  lemma BodyFitsIff(lib: Library, w: Wording, screen: string, l: Legacy)
    requires screen in SCREENS && WordingFits(lib, w)
    ensures var bs := Converted(w, screen, l).body;
            BodyListErrors(lib, screen, bs, |bs|) == {} <==> forall i :: 0 <= i < |l.body| ==> BlockFits(lib, screen, l.body[i])
  {
    if l.body == [] {
      BuiltInBodyFits(lib, w, screen);
    } else {
      BlocksFitIff(lib, screen, l.body);
    }
  }

  lemma BlocksFitIff(lib: Library, screen: string, blocks: seq<LegacyBlock>)
    ensures var bs := ConvertBlocks(blocks);
            BodyListErrors(lib, screen, bs, |bs|) == {} <==> forall i :: 0 <= i < |blocks| ==> BlockFits(lib, screen, blocks[i])
  {
    var bs := ConvertBlocks(blocks);
    forall i | 0 <= i < |bs|
      ensures BodyErrors(lib, screen, i, bs[i]) == {} <==> BlockFits(lib, screen, blocks[i])
    {
      BlockFitsIff(lib, screen, i, blocks[i]);
    }
    if BodyListErrors(lib, screen, bs, |bs|) == {} {
      forall i | 0 <= i < |bs|
        ensures BodyErrors(lib, screen, i, bs[i]) == {}
      {
        BodyErrorsListed(lib, screen, bs, |bs|, i);
      }
    } else if forall i :: 0 <= i < |blocks| ==> BlockFits(lib, screen, blocks[i]) {
      NoBodyErrors(lib, screen, bs, |bs|);
    }
  }

  // ------------------------------------------------------------------ ids

  function TrimmedIDs(doc: Doc): seq<string> {
    seq(|Names(doc)|, i requires 0 <= i < |Names(doc)| => Names(doc)[i].id)
  }

  lemma BadIffIDBad(doc: Doc, i: nat)
    requires i < |Names(doc)|
    ensures Bad(TrimmedIDs(doc), i) <==> IDBad(Names(doc), i)
  {
    var ids, names := TrimmedIDs(doc), Names(doc);
    if k :| 0 <= k < i && names[k].id == names[i].id {
      assert ids[k] == ids[i];
    }
    if k :| 0 <= k < i && ids[k] == ids[i] {
      assert names[k].id == names[i].id;
    }
  }

  lemma NoIDErrorsIff(doc: Doc)
    ensures IDErrors(Names(doc), |Names(doc)|) == {} <==> forall i :: 0 <= i < |TrimmedIDs(doc)| ==> !Bad(TrimmedIDs(doc), i)
  {
    var names := Names(doc);
    forall i | 0 <= i < |names|
      ensures Bad(TrimmedIDs(doc), i) <==> IDBad(names, i)
    {
      BadIffIDBad(doc, i);
    }
    if IDErrors(names, |names|) == {} {
      forall i | 0 <= i < |names|
        ensures !IDBad(names, i)
      {
        IDErrorsListed(names, |names|, i);
        assert At(names[i].list, names[i].index, "id") !in When(IDBad(names, i), At(names[i].list, names[i].index, "id"));
      }
    } else if forall i :: 0 <= i < |names| ==> !Bad(TrimmedIDs(doc), i) {
      NoIDErrors(names, |names|);
    }
  }

  /** Ids in front of good ones. */
  lemma IDsInFront(a: seq<string>, b: seq<string>)
    requires forall j :: 0 <= j < |b| ==> !Bad(b, j)
    ensures (forall i :: 0 <= i < |a + b| ==> !Bad(a + b, i)) <==> forall i :: 0 <= i < |a| ==> !Bad(a, i) && a[i] !in b
  {
    var all := a + b;
    if forall i :: 0 <= i < |a| ==> !Bad(a, i) && a[i] !in b {
      forall i | 0 <= i < |all|
        ensures !Bad(all, i)
      {
        FrontIsGood(a, b, i);
      }
    }
    if forall i :: 0 <= i < |all| ==> !Bad(all, i) {
      forall i | 0 <= i < |a|
        ensures !Bad(a, i) && a[i] !in b
      {
        FrontWasGood(a, b, i);
      }
    }
  }

  lemma FrontIsGood(a: seq<string>, b: seq<string>, i: nat)
    requires i < |a + b| && forall j :: 0 <= j < |b| ==> !Bad(b, j)
    requires forall j :: 0 <= j < |a| ==> !Bad(a, j) && a[j] !in b
    ensures !Bad(a + b, i)
  {
    var all := a + b;
    if i < |a| {
      assert all[i] == a[i] && !Bad(a, i);
      assert forall k :: 0 <= k < i ==> all[k] == a[k];
    } else {
      assert all[i] == b[i - |a|] && !Bad(b, i - |a|);
      forall k | 0 <= k < i
        ensures all[k] != all[i]
      {
        if k < |a| {
          assert all[k] == a[k] && b[i - |a|] in b;
        } else {
          assert all[k] == b[k - |a|];
        }
      }
    }
  }

  lemma FrontWasGood(a: seq<string>, b: seq<string>, i: nat)
    requires i < |a| && forall j :: 0 <= j < |a + b| ==> !Bad(a + b, j)
    ensures !Bad(a, i) && a[i] !in b
  {
    var all := a + b;
    assert !Bad(all, i) && all[i] == a[i];
    forall k | 0 <= k < i
      ensures a[k] != a[i]
    {
      assert all[k] == a[k];
    }
    forall j | 0 <= j < |b|
      ensures b[j] != a[i]
    {
      assert all[|a| + j] == b[j] && !Bad(all, |a| + j);
    }
  }

  lemma ElementIDsAreLast(w: Wording, screen: string)
    requires screen in SCREENS
    ensures |BuiltInIDs(screen)| == |DefaultBody(w, screen)| + |ElementIDs(screen)|
    ensures BuiltInIDs(screen)[|DefaultBody(w, screen)|..] == ElementIDs(screen)
  {
  }

  lemma ElementIDsAreGood(w: Wording, screen: string)
    requires screen in SCREENS
    ensures forall j :: 0 <= j < |ElementIDs(screen)| ==> !Bad(ElementIDs(screen), j) && Tidy(ElementIDs(screen)[j])
  {
    ElementIDsAreLast(w, screen);
    BuiltInIDsAreTidy(screen);
    BuiltInIDsDiffer(screen);
    var all, n := BuiltInIDs(screen), |DefaultBody(w, screen)|;
    assert forall j :: 0 <= j < |ElementIDs(screen)| ==> ElementIDs(screen)[j] == all[n + j];
  }

  function RawElementIDs(doc: Doc): seq<string> {
    seq(|doc.inputs|, i requires 0 <= i < |doc.inputs| => doc.inputs[i].id)
    + seq(|doc.buttons|, i requires 0 <= i < |doc.buttons| => doc.buttons[i].id)
  }

  lemma ConvertedElementIDs(w: Wording, screen: string, l: Legacy)
    requires screen in SCREENS
    ensures RawElementIDs(Converted(w, screen, l)) == ElementIDs(screen)
  {
    var xs := DefaultInputList(w, screen);
    assert forall i :: 0 <= i < |xs| ==> ConvertAll(l, xs)[i].id == xs[i].id;
  }

  lemma IDsOfBlocks(doc: Doc, blocks: seq<LegacyBlock>, elements: seq<string>)
    requires doc.body == ConvertBlocks(blocks) && RawElementIDs(doc) == elements
    requires forall j :: 0 <= j < |elements| ==> TrimSpace(elements[j]) == elements[j]
    ensures TrimmedIDs(doc) == BlockIDs(blocks) + elements
  {
    NamesTrimIDs(doc);
    var raw := RawIDs(doc);
    assert raw == seq(|doc.body|, i requires 0 <= i < |doc.body| => doc.body[i].id) + elements;
    forall i | 0 <= i < |raw|
      ensures TrimmedIDs(doc)[i] == (BlockIDs(blocks) + elements)[i]
    {
      assert i < |blocks| ==> raw[i] == blocks[i].id;
      assert i >= |blocks| ==> raw[i] == elements[i - |blocks|];
    }
  }

  lemma IDsFitIff(lib: Library, w: Wording, screen: string, l: Legacy)
    requires screen in SCREENS
    ensures var names := Names(Converted(w, screen, l));
            IDErrors(names, |names|) == {} <==> BlockIDsFit(screen, BlockIDs(l.body))
  {
    var c := Converted(w, screen, l);
    if l.body == [] {
      BuiltInIDsFit(w, screen);
      SameIDs(w, screen, l);
    } else {
      ElementIDsAreGood(w, screen);
      forall j | 0 <= j < |ElementIDs(screen)|
        ensures TrimSpace(ElementIDs(screen)[j]) == ElementIDs(screen)[j]
      {
        TidyIsTrimmed(ElementIDs(screen)[j]);
      }
      ConvertedElementIDs(w, screen, l);
      IDsOfBlocks(c, l.body, ElementIDs(screen));
      IDsInFront(BlockIDs(l.body), ElementIDs(screen));
      NoIDErrorsIff(c);
    }
  }

  lemma SameIDs(w: Wording, screen: string, l: Legacy)
    requires screen in SCREENS && l.body == []
    ensures Names(Converted(w, screen, l)) == Names(DefaultDialog(w, screen))
  {
    var xs := DefaultInputList(w, screen);
    assert forall i :: 0 <= i < |xs| ==> ConvertAll(l, xs)[i].id == xs[i].id;
  }

  // ------------------------------------------------------------------ inputs and the submit button

  predicate LabelFits(lib: Library, role: string, l: Legacy) {
    && (role == PASSWORD ==> Replaces(lib, l.passwordLabel, MAX_TITLE))
    && (role == CONFIRM ==> Replaces(lib, l.confirmLabel, MAX_TITLE))
  }

  lemma InputFitsIff(lib: Library, screen: string, i: nat, l: Legacy, x: Input)
    requires RequiredText(lib, x.labelText, MAX_TITLE) && ValidVisibility(screen, x.when) && FunctionalVisibility(x.when)
    requires RoleFits(screen, x) && x.width == 240 && 0 <= x.maxLength <= 1024 && x.initial == "" && !x.multiline
    requires x.multilineLines == 0 && x.options == [] && (x.kind == TEXT || (x.kind == OPTION && x.role == PROFILE_CHOICE))
    ensures AllInputErrors(lib, screen, i, ConvertInput(l, x), false) == {}
       <==> LabelFits(lib, x.role, l) && l.inputsWidth <= MAX_WIDTH
  {
    var c := ConvertInput(l, x);
    assert PASSWORD != CONFIRM;
    AllContainsParts(lib, screen, i, c, false);
    if AllInputErrors(lib, screen, i, c, false) == {} {
      assert At(Inputs, i, "label") !in InputErrors(lib, screen, i, c);
      assert At(Inputs, i, "width") !in InputErrors(lib, screen, i, c);
    }
  }

  lemma ConvertedKeysFit(w: Wording, screen: string, l: Legacy)
    ensures var xs := ConvertAll(l, DefaultInputList(w, screen)); forall i :: 0 <= i < |xs| ==> !KeyBad(xs, i)
  {
    BuiltInKeysFit(w, screen);
    KeysAreKept(l, DefaultInputList(w, screen));
  }

  lemma KeysAreKept(l: Legacy, xs: seq<Input>)
    requires forall i :: 0 <= i < |xs| ==> !KeyBad(xs, i)
    ensures forall i :: 0 <= i < |xs| ==> !KeyBad(ConvertAll(l, xs), i)
  {
    var cs := ConvertAll(l, xs);
    assert Keys(cs) == Keys(xs);
    forall i | 0 <= i < |xs|
      ensures !KeyBad(cs, i)
    {
      assert !KeyBad(xs, i);
    }
  }

  lemma InputAtFitsIff(lib: Library, w: Wording, screen: string, l: Legacy, i: nat)
    requires screen in SCREENS && WordingFits(lib, w) && i < |DefaultInputList(w, screen)|
    ensures var x := DefaultInputList(w, screen)[i];
            AllInputErrors(lib, screen, i, ConvertInput(l, x), false) == {} <==> LabelFits(lib, x.role, l) && l.inputsWidth <= MAX_WIDTH
  {
    assert RequiredText(lib, w(LABELS[1]), MAX_TITLE) && RequiredText(lib, w(LABELS[2]), MAX_TITLE);
    assert RequiredText(lib, w(LABELS[3]), MAX_TITLE) && RequiredText(lib, w(LABELS[4]), MAX_TITLE);
    DefaultInputShape(w, screen, i);
    InputFitsIff(lib, screen, i, l, DefaultInputList(w, screen)[i]);
  }

  lemma NoUnionIff(sets: seq<set<Path>>)
    ensures UnionUpTo(sets, |sets|) == {} <==> forall i :: 0 <= i < |sets| ==> sets[i] == {}
  {
    if UnionUpTo(sets, |sets|) == {} {
      forall i | 0 <= i < |sets|
        ensures sets[i] == {}
      {
        EmptyUnion(sets, |sets|, i);
      }
    } else if forall i :: 0 <= i < |sets| ==> sets[i] == {} {
      NothingInUnion(sets, |sets|);
    }
  }

  /** The screens with a password and a confirmation. */
  lemma LabelsFitIff(lib: Library, w: Wording, screen: string, l: Legacy)
    requires screen in SCREENS
    ensures var xs := DefaultInputList(w, screen);
            (forall i :: 0 <= i < |xs| ==> LabelFits(lib, xs[i].role, l)) <==> LabelsFit(lib, screen, l)
  {
    var xs := DefaultInputList(w, screen);
    assert PASSWORD != CONFIRM && LOGIN != REGISTER;
    if screen == LOGIN {
      assert xs[0].role == PASSWORD;
    } else if screen == REGISTER {
      assert xs[0].role == PASSWORD && xs[1].role == CONFIRM;
    }
  }

  lemma InputsFitIff(lib: Library, w: Wording, screen: string, l: Legacy)
    requires screen in SCREENS && WordingFits(lib, w)
    ensures var xs := Converted(w, screen, l).inputs;
            InputListErrors(lib, screen, xs, |xs|) == {} <==> LabelsFit(lib, screen, l) && l.inputsWidth <= MAX_WIDTH
  {
    var xs := DefaultInputList(w, screen);
    var cs := ConvertAll(l, xs);
    var sets := InputErrorSets(lib, screen, cs);
    ConvertedKeysFit(w, screen, l);
    forall i | 0 <= i < |xs|
      ensures sets[i] == {} <==> LabelFits(lib, xs[i].role, l) && l.inputsWidth <= MAX_WIDTH
    {
      InputAtFitsIff(lib, w, screen, l, i);
    }
    NoUnionIff(sets);
    LabelsFitIff(lib, w, screen, l);
    assert |sets| == |xs| > 0;
  }

  lemma SubmitFitsIff(lib: Library, screen: string, l: Legacy, b: Button)
    requires RequiredText(lib, b.labelText, MAX_TITLE) && b.when == "" && b.action.kind == SUBMIT
    ensures ButtonErrors(lib, screen, 0, ConvertSubmit(l, b)) == {} <==> SubmitFits(lib, l)
  {
    var c := ConvertSubmit(l, b);
    if ButtonErrors(lib, screen, 0, c) == {} {
      assert At(Buttons, 0, "label") !in ButtonErrors(lib, screen, 0, c);
      assert At(Buttons, 0, "tooltip") !in ButtonErrors(lib, screen, 0, c);
      assert At(Buttons, 0, "width") !in ButtonErrors(lib, screen, 0, c);
    }
  }

  lemma BuiltInSubmit(lib: Library, w: Wording, screen: string)
    requires WordingFits(lib, w)
    ensures var b := DefaultButtons(w, screen)[0]; RequiredText(lib, b.labelText, MAX_TITLE) && b.when == "" && b.action.kind == SUBMIT
  {
    assert RequiredText(lib, w(LABELS[5]), MAX_TITLE);
  }

  lemma OtherButtonFits(lib: Library, w: Wording, screen: string)
    requires screen in SCREENS && WordingFits(lib, w)
    ensures var bs := DefaultButtons(w, screen); 1 <= |bs| <= 2 && (|bs| > 1 ==> ButtonErrors(lib, screen, 1, bs[1]) == {})
  {
    assert RequiredText(lib, w(LABELS[6]), MAX_TITLE);
    if screen == PROFILE_SELECT {
      ButtonFits(lib, screen, 1, DefaultButtons(w, screen)[1]);
    }
  }

  lemma ButtonsFitIff(lib: Library, w: Wording, screen: string, l: Legacy)
    requires screen in SCREENS && WordingFits(lib, w)
    ensures var bs := Converted(w, screen, l).buttons; ButtonListErrors(lib, screen, bs, |bs|) == {} <==> SubmitFits(lib, l)
  {
    var bs := Converted(w, screen, l).buttons;
    BuiltInSubmit(lib, w, screen);
    SubmitFitsIff(lib, screen, l, DefaultButtons(w, screen)[0]);
    OtherButtonFits(lib, w, screen);
    FirstButtonDecides(lib, screen, bs);
  }

  lemma FirstButtonDecides(lib: Library, screen: string, bs: seq<Button>)
    requires 1 <= |bs| <= 2 && (|bs| > 1 ==> ButtonErrors(lib, screen, 1, bs[1]) == {})
    ensures ButtonListErrors(lib, screen, bs, |bs|) == {} <==> ButtonErrors(lib, screen, 0, bs[0]) == {}
  {
    ListOfButtons(lib, screen, bs, 0);
    if |bs| > 1 {
      ListOfButtons(lib, screen, bs, 1);
      UnionEmpty(ButtonListErrors(lib, screen, bs, 1), ButtonErrors(lib, screen, 1, bs[1]));
    }
    UnionEmpty({}, ButtonErrors(lib, screen, 0, bs[0]));
  }

  lemma ListOfButtons(lib: Library, screen: string, bs: seq<Button>, n: nat)
    requires n < |bs|
    ensures ButtonListErrors(lib, screen, bs, 0) == {}
    ensures ButtonListErrors(lib, screen, bs, n + 1) == ButtonListErrors(lib, screen, bs, n) + ButtonErrors(lib, screen, n, bs[n])
  {
  }

  // ------------------------------------------------------------------ the whole document

  lemma ConvertedFlowFits(w: Wording, screen: string, l: Legacy)
    requires screen in SCREENS
    ensures FlowErrors(Converted(w, screen, l)) == {}
  {
    var bs := Converted(w, screen, l).buttons;
    CountedAction(bs, {SUBMIT}, |bs|);
    CountedAction(bs, {OPEN_URL, COPY}, |bs|);
    assert bs[0].action.kind == SUBMIT;
  }

  lemma ConvertedRolesFit(w: Wording, screen: string, l: Legacy)
    requires screen in SCREENS
    ensures BadRoles(screen, Converted(w, screen, l).inputs) == {}
  {
    var xs := Converted(w, screen, l).inputs;
    DefaultInputs(w, screen);
    ConversionKeepsInputs(screen, l, DefaultInputList(w, screen));
    InputsBindRoles(screen, xs);
    forall role | role in {PASSWORD, CONFIRM, PROFILE_NAME, PROFILE_CHOICE}
      ensures !RoleBad(screen, xs, role)
    {
      CountedRole(xs, role, |xs|);
      assert xs[..|xs|] == xs;
    }
  }

  lemma NoErrorsIff(lib: Library, screen: string, doc: Doc)
    requires FlowErrors(doc) == {} && BadRoles(screen, doc.inputs) == {}
    ensures DialogErrors(lib, screen, doc) == {}
       <==> && HeaderErrors(lib, doc) == {} && IDErrors(Names(doc), |Names(doc)|) == {}
            && BodyListErrors(lib, screen, doc.body, |doc.body|) == {}
            && InputListErrors(lib, screen, doc.inputs, |doc.inputs|) == {}
            && ButtonListErrors(lib, screen, doc.buttons, |doc.buttons|) == {}
  {
    var h, i := HeaderErrors(lib, doc), IDErrors(Names(doc), |Names(doc)|);
    var b, x := BodyListErrors(lib, screen, doc.body, |doc.body|), InputListErrors(lib, screen, doc.inputs, |doc.inputs|);
    var s := ButtonListErrors(lib, screen, doc.buttons, |doc.buttons|);
    assert RoleErrors({}) == {};
    UnionEmpty(h, i);
    UnionEmpty(h + i, b);
    UnionEmpty(h + i + b, x);
    UnionEmpty(h + i + b + x, s);
    UnionEmpty(h + i + b + x + s, {});
  }

  /** On each of the four screens, a converted document passes the validator exactly when the legacy document fits. */
  lemma ConvertedIsAcceptedIff(lib: Library, w: Wording, screen: string, l: Legacy)
    requires screen in SCREENS && WordingFits(lib, w)
    ensures DialogErrors(lib, screen, ConvertLegacy(DefaultDialog(w, screen), l)) == {} <==> LegacyFits(lib, screen, l)
  {
    HeaderFitsIff(lib, w, screen, l);
    IDsFitIff(lib, w, screen, l);
    BodyFitsIff(lib, w, screen, l);
    InputsFitIff(lib, w, screen, l);
    ButtonsFitIff(lib, w, screen, l);
    ConvertedFlowFits(w, screen, l);
    ConvertedRolesFit(w, screen, l);
    NoErrorsIff(lib, screen, Converted(w, screen, l));
  }
}
