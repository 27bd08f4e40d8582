/**
 * Properties of the router: the alias branches cannot overlap, so their order
 * does not matter; what each branch sends; and the closure property that every
 * option the bot ever offers is answered with real content.
 */
module RouterProperties {
  import opened Options
  import opened Strings
  import opened Kb
  import opened Payloads
  import opened Router

  /** The four consulted alias sets are pairwise disjoint. */
  lemma AliasSetsDisjoint(i: TextIntent, j: TextIntent)
    requires i != j
    ensures AliasesOf(i) !! AliasesOf(j)
  {
  }

  /** A normalised string selects a branch exactly when it is one of that branch's aliases. */
  lemma DispatchSelects(lc: string, i: TextIntent)
    requires i != Fallback
    ensures Dispatch(lc) == i <==> lc in AliasesOf(i)
  {
    if lc in AliasesOf(i) && Dispatch(lc) != i {
      AliasSetsDisjoint(i, Dispatch(lc));
    }
  }

  /** The text path in terms of the normalised body alone. */
  lemma TextPath(body: Option<string>, lc: string)
    requires lc == Normalize(body.GetOr(""))
    ensures HandleMessage(TextMessage(body)) == Outcome(TextReplies(Dispatch(lc)), Ok)
  {
  }

  /** Trying the alias sets in the order `order` and taking the first that contains `lc`. */
  function FirstMatch(order: seq<TextIntent>, lc: string): (i: TextIntent)
    ensures i == Fallback || i in order
  {
    if |order| == 0 then Fallback
    else if lc in AliasesOf(order[0]) then order[0]
    else FirstMatch(order[1..], lc)
  }

  predicate CoversBranches(order: seq<TextIntent>)
  {
    MenuIntent in order && DwaniIntent in order && ServicesIntent in order && ApplyIntent in order
  }

  /**
   * The order menu, DWANI, services, apply is not load-bearing: checking the
   * alias sets in ANY order that includes all four selects the same branch.
   */
  lemma {:induction false} DispatchOrderIrrelevant(order: seq<TextIntent>, lc: string)
    requires CoversBranches(order)
    ensures FirstMatch(order, lc) == Dispatch(lc)
  {
    FirstMatchFindsUnique(order, lc, Dispatch(lc));
  }

  lemma {:induction false} FirstMatchFindsUnique(order: seq<TextIntent>, lc: string, target: TextIntent)
    requires target != Fallback ==> lc in AliasesOf(target) && target in order
    requires forall j: TextIntent :: j != target ==> lc !in AliasesOf(j)
    ensures FirstMatch(order, lc) == target
    decreases |order|
  {
    if |order| == 0 {
    } else if lc in AliasesOf(order[0]) {
    } else {
      assert target != Fallback ==> target in order[1..] by {
        if target != Fallback {
          assert order[0] != target;
          var k :| 0 <= k < |order| && order[k] == target;
          assert order[1..][k - 1] == target;
        }
      }
      FirstMatchFindsUnique(order[1..], lc, target);
    }
  }

  /**
   * A text whose normalisation is exactly `hi`, `hello`, `start` or `menu`
   * gets exactly the main menu, and only such a text gets exactly the main
   * menu on the text path.
   */
  lemma MenuGreeting(body: string)
    ensures Normalize(body) in MenuAliases <==>
              HandleMessage(TextMessage(Some(body))) == Outcome([Show(MainMenu)], Ok)
  {
    var lc := Normalize(body);
    TextPath(Some(body), lc);
    MenuFor(lc);
  }

  lemma MenuFor(lc: string)
    ensures lc in MenuAliases <==> TextReplies(Dispatch(lc)) == [Show(MainMenu)]
  {
    DispatchSelects(lc, MenuIntent);
  }

  lemma NormalizeCapitalMenu()
    ensures Normalize("MENU") == "menu"
  {
    StripTrimmed("MENU");
    assert Lower("MENU") == "menu";
  }

  lemma NormalizeGreetingSentence()
    ensures Normalize("Hi there") == "hi there"
  {
    StripTrimmed("Hi there");
    assert Lower("Hi there") == "hi there";
  }

  /** A greeting in any case, with any whitespace around it, still opens the menu. */
  lemma MenuGreetingExample(ws1: string, ws2: string)
    requires AllSpace(ws1) && AllSpace(ws2)
    ensures HandleMessage(TextMessage(Some(ws1 + "MENU" + ws2))) == Outcome([Show(MainMenu)], Ok)
  {
    var body := ws1 + "MENU" + ws2;
    assert Normalize(body) == "menu" by {
      NormalizePadding(ws1, "MENU", ws2);
      NormalizeCapitalMenu();
    }
    MenuGreeting(body);
  }

  lemma GreetingSentenceMatchesNothing()
    ensures forall j: TextIntent :: "hi there" !in AliasesOf(j)
  {
  }

  /** Containing a greeting word is not enough: `Hi there` falls through to the refusal. */
  lemma ContainmentIsNotMatch(ws1: string, ws2: string)
    requires AllSpace(ws1) && AllSpace(ws2)
    ensures HandleMessage(TextMessage(Some(ws1 + "Hi there" + ws2))) == Outcome(FallbackReplies, Ok)
  {
    var body := ws1 + "Hi there" + ws2;
    assert Normalize(body) == "hi there" by {
      NormalizePadding(ws1, "Hi there", ws2);
      NormalizeGreetingSentence();
    }
    GreetingSentenceMatchesNothing();
    FallbackPath(Some(body), "hi there");
  }

  /** A text whose normalisation `lc` matches no consulted alias gets the fallback, with status `ok`. */
  lemma FallbackPath(body: Option<string>, lc: string)
    requires lc == Normalize(body.GetOr(""))
    requires forall j: TextIntent :: lc !in AliasesOf(j)
    ensures HandleMessage(TextMessage(body)) == Outcome(FallbackReplies, Ok)
  {
    TextPath(body, lc);
    FallbackFor(lc);
  }

  /**
   * What the three other alias branches send: the DWANI buttons alone; the
   * rephrased services text then the contact buttons; the apply text alone,
   * not rephrased.
   */
  lemma TextBranches(body: string)
    ensures Normalize(body) in DwaniAliases + {"3"} ==>
              HandleMessage(TextMessage(Some(body))).replies == [Show(DwaniButtons)]
    ensures Normalize(body) in ServicesAliases + {"2"} ==>
              HandleMessage(TextMessage(Some(body))).replies == [Say(Services, true), Show(ContactButton)]
    ensures Normalize(body) in ApplyAliases ==>
              HandleMessage(TextMessage(Some(body))).replies == [Say(Apply, false)]
  {
    var lc := Normalize(body);
    TextPath(Some(body), lc);
    BranchReplies(lc);
  }

  lemma BranchReplies(lc: string)
    ensures lc in DwaniAliases + {"3"} ==> TextReplies(Dispatch(lc)) == [Show(DwaniButtons)]
    ensures lc in ServicesAliases + {"2"} ==> TextReplies(Dispatch(lc)) == [Say(Services, true), Show(ContactButton)]
    ensures lc in ApplyAliases ==> TextReplies(Dispatch(lc)) == [Say(Apply, false)]
  {
  }

  /** The reply to any text that matches none of the consulted aliases. */
  const FallbackReplies: seq<Reply> := [Say(OutOfScope, true), Show(MainMenu)]

  /**
   * A text gets the rephrased refusal followed by the main menu exactly when
   * its normalisation is in none of the four consulted alias sets.
   */
  lemma FallbackExactly(body: Option<string>)
    ensures HandleMessage(TextMessage(body)).replies == FallbackReplies <==>
              forall j: TextIntent :: Normalize(body.GetOr("")) !in AliasesOf(j)
  {
    var lc := Normalize(body.GetOr(""));
    TextPath(body, lc);
    FallbackFor(lc);
  }

  lemma FallbackFor(lc: string)
    ensures TextReplies(Dispatch(lc)) == FallbackReplies <==> forall j: TextIntent :: lc !in AliasesOf(j)
  {
  }

  /** A missing body, an empty body and a blank body all get the fallback. */
  lemma EmptyTextFallsBack(ws: string)
    requires AllSpace(ws)
    ensures HandleMessage(TextMessage(None)).replies == FallbackReplies
    ensures HandleMessage(TextMessage(Some(ws))).replies == FallbackReplies
  {
    NormalizeEmpty();
    NormalizeBlank(ws);
    EmptyMatchesNothing();
    FallbackPath(None, "");
    FallbackPath(Some(ws), "");
  }

  lemma EmptyMatchesNothing()
    ensures forall j: TextIntent :: "" !in AliasesOf(j)
  {
  }

  lemma NormalizeEmpty()
    ensures Normalize("") == ""
  {
    StripTrimmed("");
    LowerOfLowerCase("");
  }

  lemma NormalizeBlank(ws: string)
    requires AllSpace(ws)
    ensures Normalize(ws) == ""
  {
    NormalizeEmpty();
    assert ws == "" + "" + ws;
    NormalizePadding("", "", ws);
  }

  /**
   * The alias sets of `about`, `internships`, `certifications` and `contact`
   * are never consulted: typing any of their aliases (`about`, `1`, `4`, `5`,
   * ...) gets the fallback.
   */
  lemma UnconsultedAliasesFallBack(body: string)
    requires Normalize(body) in UnconsultedAliases
    ensures HandleMessage(TextMessage(Some(body))).replies == FallbackReplies
  {
    var lc := Normalize(body);
    TextPath(Some(body), lc);
    UnconsultedMatchNothing(lc);
    FallbackFor(lc);
  }

  lemma UnconsultedMatchNothing(lc: string)
    requires lc in UnconsultedAliases
    ensures forall j: TextIntent :: lc !in AliasesOf(j)
  {
    if lc in AboutAliases {
      AboutAliasesMatchNothing(lc);
    } else if lc in InternshipsAliases {
      InternshipsAliasesMatchNothing(lc);
    } else if lc in CertificationsAliases {
      CertificationsAliasesMatchNothing(lc);
    } else {
      ContactAliasesMatchNothing(lc);
    }
  }

  lemma AboutAliasesMatchNothing(lc: string)
    requires lc in AboutAliases
    ensures forall j: TextIntent :: lc !in AliasesOf(j)
  {
  }

  lemma InternshipsAliasesMatchNothing(lc: string)
    requires lc in InternshipsAliases
    ensures forall j: TextIntent :: lc !in AliasesOf(j)
  {
  }

  lemma CertificationsAliasesMatchNothing(lc: string)
    requires lc in CertificationsAliases
    ensures forall j: TextIntent :: lc !in AliasesOf(j)
  {
  }

  lemma ContactAliasesMatchNothing(lc: string)
    requires lc in ContactAliases
    ensures forall j: TextIntent :: lc !in AliasesOf(j)
  {
  }

  /** Whitespace around a text never changes the reply. */
  lemma TextRoutingIgnoresPadding(ws1: string, s: string, ws2: string)
    requires AllSpace(ws1) && AllSpace(ws2)
    ensures HandleMessage(TextMessage(Some(ws1 + s + ws2))) == HandleMessage(TextMessage(Some(s)))
  {
    var lc := Normalize(s);
    NormalizePadding(ws1, s, ws2);
    TextPath(Some(s), lc);
    TextPath(Some(ws1 + s + ws2), lc);
  }

  /** Two texts that differ only in letter case get the same reply. */
  lemma TextRoutingIgnoresCase(s1: string, s2: string)
    requires Lower(s1) == Lower(s2)
    ensures HandleMessage(TextMessage(Some(s1))) == HandleMessage(TextMessage(Some(s2)))
  {
    var lc := Normalize(s1);
    NormalizeIgnoresCase(s1, s2);
    TextPath(Some(s1), lc);
    TextPath(Some(s2), lc);
  }

  /** Every id of the mapping table names a knowledge-base entry, so `KB.get`'s default never fires. */
  lemma MappingTargetsExist(id: string)
    requires id in IdToKey
    ensures IdToKey[id] in Keys
    ensures RouteId(id) == [Say(At(IdToKey[id]), true), Show(BackToMenu)]
  {
  }

  /**
   * What the five ids of the if/elif chain send: the main menu; the DWANI
   * buttons; the rephrased services text then the contact buttons; the
   * internship list; the apply text, not rephrased.
   */
  lemma ChainReplies(replyType: string)
    requires replyType == ListReply || replyType == ButtonReply
    ensures HandleMessage(Interactive(replyType, "main_menu")) == Outcome([Show(MainMenu)], Ok)
    ensures HandleMessage(Interactive(replyType, "dwani_program")) == Outcome([Show(DwaniButtons)], Ok)
    ensures HandleMessage(Interactive(replyType, "it_services")) ==
              Outcome([Say(Services, true), Show(ContactButton)], Ok)
    ensures HandleMessage(Interactive(replyType, "internship_tracks")) == Outcome([Show(InternshipList)], Ok)
    ensures HandleMessage(Interactive(replyType, "apply_form")) == Outcome([Say(Apply, false)], Ok)
  {
  }

  /** The chain ids and the mapping table do not overlap, so no table entry is shadowed. */
  lemma NoShadowedMapping()
    ensures ChainIds !! IdToKey.Keys
  {
  }

  /**
   * Closure: every option id of every payload is answered with something other
   * than the out-of-scope text, whichever interactive reply type carries it.
   */
  lemma OptionsAreAnswered(p: Payload, k: nat, replyType: string)
    requires k < |OptionIds(p)|
    requires replyType == ListReply || replyType == ButtonReply
    ensures AllOptionIds <= HandledIds
    ensures OptionIds(p)[k] in HandledIds
    ensures var r := HandleMessage(Interactive(replyType, OptionIds(p)[k]));
            r.status == Ok && |r.replies| > 0 &&
            forall m :: 0 <= m < |r.replies| ==> !(r.replies[m].Say? && r.replies[m].topic == OutOfScope)
  {
  }

  /**
   * An id neither the chain nor the table knows gets exactly one reply: the
   * out-of-scope text, not rephrased, with no menu after it.
   */
  lemma UnknownIdRefused(id: string, replyType: string)
    requires replyType == ListReply || replyType == ButtonReply
    requires id !in HandledIds
    ensures HandleMessage(Interactive(replyType, id)) == Outcome([Say(OutOfScope, false)], Ok)
  {
  }

  /** A reply that sends the DWANI introduction text or the apply-button payload. */
  predicate Unreachable(x: Reply)
  {
    (x.Say? && x.topic == DwaniIntro) || x == Show(ApplyButton)
  }

  /**
   * The DWANI introduction entry of the knowledge base is never sent, and the
   * apply-button payload is never sent: no event leads to either.
   */
  lemma NeverSent(ev: Event)
    ensures forall m :: 0 <= m < |HandleMessage(ev).replies| ==> !Unreachable(HandleMessage(ev).replies[m])
  {
    match ev
    case NoMessage =>
    case Interactive(_, id) =>
      IdRepliesReachable(id);
    case TextMessage(body) =>
      var lc := Normalize(body.GetOr(""));
      TextPath(body, lc);
      TextRepliesReachable(Dispatch(lc));
  }

  lemma IdRepliesReachable(id: string)
    ensures forall m :: 0 <= m < |RouteId(id)| ==> !Unreachable(RouteId(id)[m])
  {
  }

  lemma TextRepliesReachable(i: TextIntent)
    ensures forall m :: 0 <= m < |TextReplies(i)| ==> !Unreachable(TextReplies(i)[m])
  {
  }

  /** An event that makes the bot send topic `t`; every topic but the DWANI introduction has one. */
  function WitnessFor(t: Topic): (ev: Event)
    requires t != DwaniIntro
    ensures Say(t, true) in HandleMessage(ev).replies || Say(t, false) in HandleMessage(ev).replies
  {
    match t
    case About => Interactive(ListReply, "about_us")
    case Services => Interactive(ListReply, "it_services")
    case Internships => Interactive(ListReply, "intern_web")
    case Apply => Interactive(ButtonReply, "apply_form")
    case Certifications => Interactive(ButtonReply, "certifications")
    case Contact => Interactive(ButtonReply, "contact_us")
    case OutOfScope => Interactive(ButtonReply, "help")
  }
}
