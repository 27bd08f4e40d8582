/**
 * The body of the webhook's message handler (main.py lines 307-399) with the
 * HTTP and JSON plumbing removed: a decoded inbound event goes in; the ordered
 * replies the bot sends, and the status it answers the webhook with, come out.
 * Each `send_text` / `send_interactive_message` call becomes one `Reply`.
 */
module Router {
  import opened Options
  import opened Strings
  import opened Kb
  import opened Payloads

  /** The first message of a webhook delivery, already decoded. */
  datatype Event =
    | NoMessage                                   // the delivery's message list is empty
    | Interactive(replyType: string, replyId: string)
      // a non-empty `interactive` object; `replyType` is its `type` field
      // (a missing type behaves like any type other than the two handled ones)
    | TextMessage(body: Option<string>)
      // anything else; `body` is the `text.body` field, absent for messages
      // that carry no text (images, audio, ...)

  /** One outgoing message: a knowledge-base text, or an interactive payload. */
  datatype Reply =
    | Say(topic: Topic, rephrased: bool)   // `rephrased`: passed through the rephrasing step first
    | Show(payload: Payload)

  datatype Status = NoMessageStatus | UnsupportedInteractiveType | Ok

  /** The `status` string of the JSON acknowledgement. */
  function StatusName(s: Status): string
  {
    match s
    case NoMessageStatus => "no_message"
    case UnsupportedInteractiveType => "unsupported_interactive_type"
    case Ok => "ok"
  }

  datatype Outcome = Outcome(replies: seq<Reply>, status: Status)

  const ListReply: string := "list_reply"
  const ButtonReply: string := "button_reply"

  /** Reply ids answered by the if/elif chain before the mapping table is consulted. */
  const ChainIds: set<string> := {"main_menu", "dwani_program", "it_services", "internship_tracks", "apply_form"}

  /** The table from reply id to knowledge-base key for the remaining menu options. */
  const IdToKey: map<string, string> := map[
    "about_us" := "about",
    "certifications" := "certifications",
    "contact_us" := "contact",
    "intern_python_ai" := "internships",
    "intern_flutter" := "internships",
    "intern_web" := "internships"
  ]

  /** Every id the interactive branch answers with something other than the refusal. */
  const HandledIds: set<string> := ChainIds + IdToKey.Keys

  /**
   * The interactive branch (main.py lines 325-358). A known id gets its answer;
   * an unknown one gets exactly the out-of-scope text, not rephrased and with
   * no menu after it.
   */
  function RouteId(id: string): (r: seq<Reply>)
    ensures 1 <= |r| <= 2
    ensures r == [Say(OutOfScope, false)] <==> id !in HandledIds
    ensures id in HandledIds ==> forall k :: 0 <= k < |r| ==> r[k] != Say(OutOfScope, true) && r[k] != Say(OutOfScope, false)
  {
    if id == "main_menu" then [Show(MainMenu)]
    else if id == "dwani_program" then [Show(DwaniButtons)]
    else if id == "it_services" then [Say(GetOrOutOfScope("services"), true), Show(ContactButton)]
    else if id == "internship_tracks" then [Show(InternshipList)]
    else if id == "apply_form" then [Say(At("apply"), false)]
    else if id in IdToKey then [Say(GetOrOutOfScope(IdToKey[id]), true), Show(BackToMenu)]
    else [Say(At("oos"), false)]
  }

  /** The branches of the free-text path, in the order the source tries them. */
  datatype TextIntent = MenuIntent | DwaniIntent | ServicesIntent | ApplyIntent | Fallback

  /** The strings that select a branch (`Fallback` is selected by none). */
  function AliasesOf(i: TextIntent): set<string>
  {
    match i
    case MenuIntent => MenuAliases
    case DwaniIntent => DwaniAliases + {"3"}
    case ServicesIntent => ServicesAliases + {"2"}
    case ApplyIntent => ApplyAliases
    case Fallback => {}
  }

  /**
   * The alias checks of main.py lines 367-386, in source order, on an already
   * normalised string. Matching is whole-string equality: a string that merely
   * contains an alias is not selected by it.
   */
  function Dispatch(lc: string): (i: TextIntent)
    ensures i != Fallback ==> lc in AliasesOf(i)
    ensures i == Fallback <==> forall j: TextIntent :: lc !in AliasesOf(j)
  {
    if exists w :: w in MenuAliases && lc == w then MenuIntent
    else if lc in DwaniAliases || lc in {"3"} then DwaniIntent
    else if lc in ServicesAliases || lc in {"2"} then ServicesIntent
    else if lc in ApplyAliases then ApplyIntent
    else Fallback
  }

  /** What each free-text branch sends. */
  function TextReplies(i: TextIntent): (r: seq<Reply>)
    ensures 1 <= |r| <= 2
    ensures (exists k :: 0 <= k < |r| && r[k].Say? && r[k].topic == OutOfScope) <==> i == Fallback
    ensures (exists k :: 0 <= k < |r| && r[k] == Show(MainMenu)) <==> i == MenuIntent || i == Fallback
  {
    match i
    case MenuIntent =>
      var r := [Show(MainMenu)];
      assert r[0] == Show(MainMenu);
      r
    case DwaniIntent => [Show(DwaniButtons)]
    case ServicesIntent =>
      assert Key(GetOrOutOfScope("services")) == "services";
      [Say(GetOrOutOfScope("services"), true), Show(ContactButton)]
    case ApplyIntent => [Say(At("apply"), false)]
    case Fallback =>
      assert At("oos") == OutOfScope by { assert Key(At("oos")) == "oos"; }
      var r := [Say(At("oos"), true), Show(MainMenu)];
      assert r[0].topic == OutOfScope && r[1] == Show(MainMenu);
      r
  }

  /** The free-text path (main.py lines 363-394); a missing body reads as the empty string. */
  function RouteText(body: Option<string>): (r: seq<Reply>)
    ensures 1 <= |r| <= 2
  {
    TextReplies(Dispatch(Normalize(body.GetOr(""))))
  }

  /**
   * The whole handler. It is total: every event gets a status; the two
   * non-`ok` statuses are exactly the two early returns, which send nothing,
   * and every `ok` sends one or two messages.
   */
  function HandleMessage(ev: Event): (r: Outcome)
    ensures r.status == NoMessageStatus <==> ev.NoMessage?
    ensures r.status == UnsupportedInteractiveType <==>
              ev.Interactive? && ev.replyType != ListReply && ev.replyType != ButtonReply
    ensures r.replies == [] <==> r.status != Ok
    ensures |r.replies| <= 2
    ensures ev.Interactive? && r.status == Ok ==> r.replies == RouteId(ev.replyId)
    ensures ev.TextMessage? ==> r.replies == RouteText(ev.body)
  {
    match ev
    case NoMessage => Outcome([], NoMessageStatus)
    case Interactive(replyType, replyId) =>
      if replyType == ListReply || replyType == ButtonReply then Outcome(RouteId(replyId), Ok)
      else Outcome([], UnsupportedInteractiveType)
    case TextMessage(body) => Outcome(RouteText(body), Ok)
  }
}
