/**
 The built-in documents of internal/playermsg/dialogdoc.go pass their own validator. Their wording is a
 parameter, which only has to fit.
 */
module DialogDefaults {
  import opened Strings
  import opened Dialog
  import opened DialogMeaning

  /** Every text is there, parses and is short enough. */
  predicate WordingFits(lib: Library, w: Wording) {
    && (forall i :: 0 <= i < |LABELS| ==> RequiredText(lib, w(LABELS[i]), MAX_TITLE))
    && (forall i :: 0 <= i < |BODIES| ==> RequiredText(lib, w(BODIES[i]), MAX_TEXT))
  }

  // The names under which the built-in documents look up their wording.
  const LABELS: seq<string> := ["title", "profile-name", "profile-choice", "password", "confirm", "submit", "create-new"]
  const BODIES: seq<string> := ["intro", "error", "premium-unverified", "premium-passthrough"]

  /** A text without white space at its ends. */
  predicate Tidy(s: string) {
    s != "" && !IsSpace(s[0]) && !IsSpace(s[|s| - 1])
  }

  lemma TidyIsTrimmed(s: string)
    requires Tidy(s)
    ensures TrimSpace(s) == s
  {
    TrimSpaceIdentity(s);
  }

  // ------------------------------------------------------------------ lists without errors

  lemma {:induction false} NoIDErrors(names: seq<Named>, n: nat)
    requires n <= |names| && forall i :: 0 <= i < n ==> !IDBad(names, i)
    ensures IDErrors(names, n) == {}
  {
    if n > 0 {
      NoIDErrors(names, n - 1);
    }
  }

  lemma {:induction false} NoBodyErrors(lib: Library, screen: string, bs: seq<Body>, n: nat)
    requires n <= |bs| && forall i :: 0 <= i < n ==> BodyErrors(lib, screen, i, bs[i]) == {}
    ensures BodyListErrors(lib, screen, bs, n) == {}
  {
    if n > 0 {
      NoBodyErrors(lib, screen, bs, n - 1);
    }
  }

  lemma {:induction false} NoButtonErrors(lib: Library, screen: string, bs: seq<Button>, n: nat)
    requires n <= |bs| && forall i :: 0 <= i < n ==> ButtonErrors(lib, screen, i, bs[i]) == {}
    ensures ButtonListErrors(lib, screen, bs, n) == {}
  {
    if n > 0 {
      NoButtonErrors(lib, screen, bs, n - 1);
    }
  }

  lemma {:induction false} NothingInUnion(sets: seq<set<Path>>, n: nat)
    requires n <= |sets| && forall i :: 0 <= i < n ==> sets[i] == {}
    ensures UnionUpTo(sets, n) == {}
  {
    if n > 0 {
      NothingInUnion(sets, n - 1);
    }
  }

  // ------------------------------------------------------------------ one element

  lemma TextBodyFits(lib: Library, screen: string, w: Wording, i: nat, id: string, when: string)
    requires RequiredText(lib, w(id), MAX_TEXT) && ValidVisibility(screen, when)
    ensures BodyErrors(lib, screen, i, TextBody(w, id, when)) == {}
  {
  }

  lemma InputFits(lib: Library, screen: string, i: nat, x: Input)
    requires RequiredText(lib, x.labelText, MAX_TITLE) && ValidVisibility(screen, x.when) && FunctionalVisibility(x.when)
    requires RoleFits(screen, x) && x.width == 240 && 0 <= x.maxLength <= 1024 && x.initial == "" && !x.multiline
    requires x.multilineLines == 0 && x.options == [] && (x.kind == TEXT || (x.kind == OPTION && x.role == PROFILE_CHOICE))
    ensures AllInputErrors(lib, screen, i, x, false) == {}
  {
  }

  lemma ButtonFits(lib: Library, screen: string, i: nat, b: Button)
    requires RequiredText(lib, b.labelText, MAX_TITLE) && b.tooltip == "" && b.width == 0 && b.when == ""
    requires b.action.kind == SUBMIT || (b.action.kind == OPEN_SCREEN && b.action.screen in OpenScreenTargets(screen))
    ensures ButtonErrors(lib, screen, i, b) == {}
  {
  }

  // ------------------------------------------------------------------ the documents

  lemma BuiltInBodyFits(lib: Library, w: Wording, screen: string)
    requires screen in SCREENS && WordingFits(lib, w)
    ensures BodyListErrors(lib, screen, DefaultBody(w, screen), |DefaultBody(w, screen)|) == {}
  {
    var bs := DefaultBody(w, screen);
    forall i | 0 <= i < |bs|
      ensures BodyErrors(lib, screen, i, bs[i]) == {}
    {
      BuiltInBodyAt(w, screen, i);
      assert RequiredText(lib, w(BODIES[i]), MAX_TEXT);
      TextBodyFits(lib, screen, w, i, BODIES[i], BodyWhen(i));
    }
    NoBodyErrors(lib, screen, bs, |bs|);
  }

  function BodyWhen(i: nat): string {
    if i == 0 then "" else if i == 1 then WHEN_ERROR else if i == 2 then PREMIUM_UNVERIFIED else PREMIUM_PASSTHROUGH
  }

  lemma BuiltInBodyAt(w: Wording, screen: string, i: nat)
    requires screen in SCREENS && i < |DefaultBody(w, screen)|
    ensures i < |BODIES| && DefaultBody(w, screen)[i] == TextBody(w, BODIES[i], BodyWhen(i))
    ensures ValidVisibility(screen, BodyWhen(i))
  {
  }

  lemma BuiltInButtonsFit(lib: Library, w: Wording, screen: string)
    requires screen in SCREENS && WordingFits(lib, w)
    ensures ButtonListErrors(lib, screen, DefaultButtons(w, screen), |DefaultButtons(w, screen)|) == {}
  {
    var bs := DefaultButtons(w, screen);
    assert RequiredText(lib, w(LABELS[5]), MAX_TITLE) && RequiredText(lib, w(LABELS[6]), MAX_TITLE);
    ButtonFits(lib, screen, 0, bs[0]);
    if screen == PROFILE_SELECT {
      ButtonFits(lib, screen, 1, bs[1]);
    }
    NoButtonErrors(lib, screen, bs, |bs|);
  }

  lemma KeysAreFine()
    ensures IsKey("profile_name") && IsKey("profile_choice") && IsKey("password") && IsKey("confirm_password")
  {
  }

  lemma BuiltInKeysFit(w: Wording, screen: string)
    ensures var xs := DefaultInputList(w, screen); forall i :: 0 <= i < |xs| ==> !KeyBad(xs, i)
  {
    KeysAreFine();
    TidyIsTrimmed("profile_name");
    TidyIsTrimmed("profile_choice");
    TidyIsTrimmed("password");
    TidyIsTrimmed("confirm_password");
    assert "password" != "confirm_password" by {
      assert |"password"| != |"confirm_password"|;
    }
  }

  lemma BuiltInInputAt(lib: Library, w: Wording, screen: string, i: nat)
    requires screen in SCREENS && WordingFits(lib, w) && i < |DefaultInputList(w, screen)|
    ensures AllInputErrors(lib, screen, i, DefaultInputList(w, screen)[i], false) == {}
  {
    assert RequiredText(lib, w(LABELS[1]), MAX_TITLE) && RequiredText(lib, w(LABELS[2]), MAX_TITLE);
    assert RequiredText(lib, w(LABELS[3]), MAX_TITLE) && RequiredText(lib, w(LABELS[4]), MAX_TITLE);
    DefaultInputShape(w, screen, i);
    InputFits(lib, screen, i, DefaultInputList(w, screen)[i]);
  }

  lemma DefaultInputShape(w: Wording, screen: string, i: nat)
    requires screen in SCREENS && i < |DefaultInputList(w, screen)|
    ensures var x := DefaultInputList(w, screen)[i];
            && (x.labelText == w(LABELS[1]) || x.labelText == w(LABELS[2]) || x.labelText == w(LABELS[3]) || x.labelText == w(LABELS[4]))
            && ValidVisibility(screen, x.when) && FunctionalVisibility(x.when) && RoleFits(screen, x)
            && x.width == 240 && 0 <= x.maxLength <= 1024 && x.initial == "" && !x.multiline && x.multilineLines == 0
            && x.options == [] && (x.kind == TEXT || (x.kind == OPTION && x.role == PROFILE_CHOICE))
  {
  }

  lemma BuiltInInputsFit(lib: Library, w: Wording, screen: string)
    requires screen in SCREENS && WordingFits(lib, w)
    ensures InputListErrors(lib, screen, DefaultInputList(w, screen), |DefaultInputList(w, screen)|) == {}
  {
    var xs := DefaultInputList(w, screen);
    var sets := InputErrorSets(lib, screen, xs);
    BuiltInKeysFit(w, screen);
    forall i | 0 <= i < |xs|
      ensures sets[i] == {}
    {
      BuiltInInputAt(lib, w, screen, i);
    }
    NothingInUnion(sets, |sets|);
  }

  lemma BuiltInFlowFits(w: Wording, screen: string)
    requires screen in SCREENS
    ensures FlowErrors(DefaultDialog(w, screen)) == {}
  {
    var bs := DefaultButtons(w, screen);
    CountedAction(bs, {SUBMIT}, |bs|);
    CountedAction(bs, {OPEN_URL, COPY}, |bs|);
    assert bs[0].action.kind == SUBMIT;
  }

  lemma BuiltInRolesFit(w: Wording, screen: string)
    requires screen in SCREENS
    ensures BadRoles(screen, DefaultInputList(w, screen)) == {}
  {
    var xs := DefaultInputList(w, screen);
    DefaultInputs(w, screen);
    InputsBindRoles(screen, xs);
    forall role | role in {PASSWORD, CONFIRM, PROFILE_NAME, PROFILE_CHOICE}
      ensures !RoleBad(screen, xs, role)
    {
      CountedRole(xs, role, |xs|);
      assert xs[..|xs|] == xs;
    }
  }

  // ------------------------------------------------------------------ ids

  /** The ids of the elements, in order. */
  function BuiltInIDs(screen: string): seq<string> {
    if screen == PROFILE_CREATE then ["intro", "error", "profile-name", "submit"]
    else if screen == PROFILE_SELECT then ["intro", "error", "profile-choice", "submit", "create-new"]
    else if screen == REGISTER then ["intro", "error", "password", "confirm", "submit"]
    else ["intro", "error", "premium-unverified", "premium-passthrough", "password", "submit"]
  }

  lemma BuiltInIDsAreTidy(screen: string)
    ensures forall i :: 0 <= i < |BuiltInIDs(screen)| ==> Tidy(BuiltInIDs(screen)[i])
  {
  }

  lemma BuiltInIDsDiffer(screen: string)
    ensures var ids := BuiltInIDs(screen); forall i, j :: 0 <= i < j < |ids| ==> ids[i] != ids[j]
  {
    assert "intro" != "error" by {
      assert "intro"[0] != "error"[0];
    }
    var ids := BuiltInIDs(screen);
    forall i, j | 0 <= i < j < |ids|
      ensures ids[i] != ids[j]
    {
      assert j > 1 ==> |ids[i]| != |ids[j]|;
    }
  }

  function RawIDs(doc: Doc): seq<string> {
    seq(|doc.body|, i requires 0 <= i < |doc.body| => doc.body[i].id)
    + seq(|doc.inputs|, i requires 0 <= i < |doc.inputs| => doc.inputs[i].id)
    + seq(|doc.buttons|, i requires 0 <= i < |doc.buttons| => doc.buttons[i].id)
  }

  lemma NamesTrimIDs(doc: Doc)
    ensures |Names(doc)| == |RawIDs(doc)|
    ensures forall i :: 0 <= i < |Names(doc)| ==> Names(doc)[i].id == TrimSpace(RawIDs(doc)[i])
  {
  }

  lemma BuiltInRawIDs(w: Wording, screen: string)
    requires screen in SCREENS
    ensures RawIDs(DefaultDialog(w, screen)) == BuiltInIDs(screen)
  {
  }

  lemma BuiltInIDsFit(w: Wording, screen: string)
    requires screen in SCREENS
    ensures var names := Names(DefaultDialog(w, screen)); IDErrors(names, |names|) == {}
  {
    var doc, ids := DefaultDialog(w, screen), BuiltInIDs(screen);
    var names := Names(doc);
    NamesTrimIDs(doc);
    BuiltInRawIDs(w, screen);
    BuiltInIDsAreTidy(screen);
    BuiltInIDsDiffer(screen);
    forall i | 0 <= i < |names|
      ensures names[i].id == ids[i] != ""
    {
      TidyIsTrimmed(ids[i]);
    }
    NoIDErrors(names, |names|);
  }

  lemma BuiltInHeaderFits(lib: Library, w: Wording, screen: string)
    requires screen in SCREENS && WordingFits(lib, w)
    ensures HeaderErrors(lib, DefaultDialog(w, screen)) == {}
  {
    assert RequiredText(lib, w(LABELS[0]), MAX_TITLE);
  }

  /** On each of the four screens the validator accepts the built-in document, whatever its wording, if that fits. */
  lemma BuiltInDialogIsAccepted(lib: Library, w: Wording, screen: string)
    requires screen in SCREENS && WordingFits(lib, w)
    ensures DialogErrors(lib, screen, DefaultDialog(w, screen)) == {}
  {
    BuiltInHeaderFits(lib, w, screen);
    BuiltInIDsFit(w, screen);
    BuiltInBodyFits(lib, w, screen);
    BuiltInInputsFit(lib, w, screen);
    BuiltInButtonsFit(lib, w, screen);
    BuiltInFlowFits(w, screen);
    BuiltInRolesFit(w, screen);
  }
}
