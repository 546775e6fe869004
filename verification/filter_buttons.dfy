/**
 * The action buttons under the filters (`FilterButtons`): which callback a
 * button runs, which buttons a phone shows and where, and the desktop button
 * row. Also what the grid does with a custom button (`handleButtonClick`).
 */
module FilterButtons {
  import opened JsValues
  import Seqs
  import opened GridConfig

  /** The callback a button is wired to. */
  datatype Action = DoSearch | DoReset | Custom(btn: ButtonConfig)

  /** `getClickHandler`: dispatch on the button's command. */
  function HandlerOf(btn: ButtonConfig): (a: Action)
    ensures a == DoSearch <==> btn.inComm == "List"
    ensures a == DoReset <==> btn.inComm == "initialize"
    ensures a.Custom? ==> a.btn == btn
  {
    if btn.inComm == "List" then DoSearch
    else if btn.inComm == "initialize" then DoReset
    else Custom(btn)
  }

  predicate IsSearchButton(btn: ButtonConfig) {
    btn.inComm == "List"
  }

  /** A phone shows a button that allows it, and always search and reset. */
  predicate MobileAllowed(btn: ButtonConfig) {
    IsTrueFlag(btn.mobileAllow) || btn.inComm == "List" || btn.inComm == "initialize"
  }

  const IsSearch: ButtonConfig -> bool := (btn: ButtonConfig) => IsSearchButton(btn)

  const IsSecondary: ButtonConfig -> bool := (btn: ButtonConfig) => !IsSearchButton(btn)

  const IsMobileAllowed: ButtonConfig -> bool := (btn: ButtonConfig) => MobileAllowed(btn)

  // ---------------------------------------------------------------------------
  // Mobile
  // ---------------------------------------------------------------------------

  /** The phone layout: a row of secondary buttons above one full-width
      search button. */
  datatype MobileLayout = MobileLayout(secondary: seq<ButtonConfig>, search: Option<ButtonConfig>)

  /** The buttons a phone considers: the configured ones, or the two defaults
      when there are none. */
  function MobileCandidates(buttons: Option<seq<ButtonConfig>>): (r: seq<ButtonConfig>)
    ensures buttons.None? || buttons.value == [] ==> r == DefaultButtons
    ensures buttons.Some? && buttons.value != [] ==> r == buttons.value
  {
    OrDefault(buttons, DefaultButtons)
  }

  function MobileKept(buttons: Option<seq<ButtonConfig>>): seq<ButtonConfig> {
    Seqs.Filter(IsMobileAllowed, MobileCandidates(buttons))
  }

  function MobileButtons(buttons: Option<seq<ButtonConfig>>): (r: MobileLayout)
    ensures forall i :: 0 <= i < |r.secondary| ==> !IsSearchButton(r.secondary[i])
    ensures r.search.Some? ==> IsSearchButton(r.search.value)
  {
    var kept := MobileKept(buttons);
    var j := Seqs.FindFirst(IsSearch, kept);
    MobileLayout(Seqs.Filter(IsSecondary, kept), if j < |kept| then Some(kept[j]) else None)
  }

  /** A phone keeps exactly the allowed buttons, in their configured order. */
  lemma MobileKeepsAllowed(buttons: Option<seq<ButtonConfig>>, btn: ButtonConfig)
    ensures btn in MobileKept(buttons) <==> btn in MobileCandidates(buttons) && MobileAllowed(btn)
    ensures Seqs.IsSubseq(MobileKept(buttons), MobileCandidates(buttons))
  {
    Seqs.FilterMembership(IsMobileAllowed, MobileCandidates(buttons), btn);
    Seqs.FilterIsSubseq(IsMobileAllowed, MobileCandidates(buttons));
  }

  /** The secondary row holds exactly the kept buttons other than search, in
      order; with the search buttons they make up the kept buttons. */
  lemma MobileSecondaryRow(buttons: Option<seq<ButtonConfig>>, btn: ButtonConfig)
    ensures btn in MobileButtons(buttons).secondary <==>
      btn in MobileCandidates(buttons) && MobileAllowed(btn) && !IsSearchButton(btn)
    ensures Seqs.IsSubseq(MobileButtons(buttons).secondary, MobileKept(buttons))
    ensures multiset(Seqs.Filter(IsSearch, MobileKept(buttons))) + multiset(MobileButtons(buttons).secondary)
            == multiset(MobileKept(buttons))
  {
    var kept := MobileKept(buttons);
    Seqs.FilterMembership(IsSecondary, kept, btn);
    MobileKeepsAllowed(buttons, btn);
    Seqs.FilterIsSubseq(IsSecondary, kept);
    Seqs.FilterPartition(IsSearch, IsSecondary, kept);
  }

  /** A search button is always allowed, so the phone's search button is the
      first configured search button, whatever the `mobileAllow` flags say,
      and there is none exactly when no button has the `List` command. */
  lemma MobileSearchIsFirstListButton(buttons: Option<seq<ButtonConfig>>)
    ensures var cands := MobileCandidates(buttons);
      var j := Seqs.FindFirst(IsSearch, cands);
      MobileButtons(buttons).search == if j < |cands| then Some(cands[j]) else None
  {
    FindFirstThroughFilter(MobileCandidates(buttons));
  }

  lemma {:induction false} FindFirstThroughFilter(s: seq<ButtonConfig>)
    ensures var kept := Seqs.Filter(IsMobileAllowed, s);
      var j := Seqs.FindFirst(IsSearch, s);
      var k := Seqs.FindFirst(IsSearch, kept);
      (j < |s| <==> k < |kept|) && (j < |s| ==> kept[k] == s[j])
    decreases |s|
  {
    if s != [] && !IsSearchButton(s[0]) {
      FindFirstThroughFilter(s[1..]);
    }
  }

  /** With no configuration a phone shows reset in the secondary row and
      search below it. */
  lemma MobileDefaults()
    ensures MobileButtons(None) == MobileLayout([DefaultButtons[1]], Some(DefaultButtons[0]))
    ensures HandlerOf(DefaultButtons[0]) == DoSearch && HandlerOf(DefaultButtons[1]) == DoReset
  {
    var d := DefaultButtons;
    assert MobileAllowed(d[0]) && MobileAllowed(d[1]);
    assert Seqs.Filter(IsMobileAllowed, d[1..]) == [d[1]];
    assert MobileKept(None) == d;
    assert Seqs.Filter(IsSecondary, d[1..]) == [d[1]];
  }

  // ---------------------------------------------------------------------------
  // Desktop
  // ---------------------------------------------------------------------------

  /** One rendered button: its caption, whether it is the filled (primary)
      variant, and its callback. */
  datatype ButtonView = ButtonView(caption: string, primary: bool, action: Action)

  function DesktopView(btn: ButtonConfig): (v: ButtonView)
    ensures v.caption == btn.caption && v.action == HandlerOf(btn)
    ensures v.primary <==> btn.inComm == "List"
  {
    ButtonView(btn.caption, IsSearchButton(btn), HandlerOf(btn))
  }

  /** The desktop row: every configured button in order, without any
      `mobileAllow` filtering; search then reset when there is no configuration. */
  function DesktopButtons(buttons: Option<seq<ButtonConfig>>): (r: seq<ButtonView>)
    ensures buttons.Some? && buttons.value != [] ==>
      |r| == |buttons.value| && forall i :: 0 <= i < |r| ==> r[i] == DesktopView(buttons.value[i])
    ensures buttons.None? || buttons.value == [] ==>
      r == [ButtonView("조회", true, DoSearch), ButtonView("초기화", false, DoReset)]
  {
    if buttons.Some? && buttons.value != [] then
      seq(|buttons.value|, i requires 0 <= i < |buttons.value| => DesktopView(buttons.value[i]))
    else [ButtonView("조회", true, DoSearch), ButtonView("초기화", false, DoReset)]
  }

  /** The desktop fallback row is what the default buttons render to, so the
      defaulting done on load changes nothing on either layout. */
  lemma DefaultsRenderAlike(c: StructureConfig)
    ensures DesktopButtons(Normalize(c).buttons) == DesktopButtons(c.buttons)
    ensures MobileButtons(Normalize(c).buttons) == MobileButtons(c.buttons)
  {
    if c.buttons.None? || c.buttons.value == [] {
      var d := DefaultButtons;
      assert DesktopView(d[0]) == ButtonView("조회", true, DoSearch);
      assert DesktopView(d[1]) == ButtonView("초기화", false, DoReset);
    }
  }

  // ---------------------------------------------------------------------------
  // Pressing a button
  // ---------------------------------------------------------------------------

  datatype Effect = Searched | Reset | Downloaded | NoEffect

  /** What pressing a button does in the grid: search, reset, or for a custom
      button the CSV download when it is `excelDown` and the user confirms. */
  function Press(btn: ButtonConfig, confirmed: bool): (e: Effect)
    ensures e == Searched <==> btn.inComm == "List"
    ensures e == Reset <==> btn.inComm == "initialize"
    ensures e == Downloaded <==> HandlerOf(btn).Custom? && btn.index == "excelDown" && confirmed
  {
    match HandlerOf(btn)
    case DoSearch => Searched
    case DoReset => Reset
    case Custom(b) => if b.index == "excelDown" && confirmed then Downloaded else NoEffect
  }
}
