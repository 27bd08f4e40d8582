/**
 * The six interactive messages the bot can build (main.py lines 140-252 and
 * 402-436). Headers, bodies and footers are display text; what matters to the
 * router is the ordered list of option ids each message offers, since the
 * user's tap comes back as one of those ids.
 */
module Payloads {

  datatype Payload =
    | MainMenu        // list message: the top-level menu
    | DwaniButtons    // button message: the DWANI program's three choices
    | InternshipList  // list message: the three internship tracks
    | ApplyButton     // button message: apply now / back to main menu
    | BackToMenu      // button message: back to main menu
    | ContactButton   // button message: contact us / back to main menu

  /** The button messages; the other two are list messages. */
  predicate IsButtons(p: Payload)
  {
    !(p.MainMenu? || p.InternshipList?)
  }

  /**
   * The option ids a payload offers, in display order (list rows across
   * sections, or buttons). Every message offers at least one option and stays
   * within WhatsApp's limits for interactive messages: at most ten list rows,
   * at most three reply buttons.
   */
  function OptionIds(p: Payload): (ids: seq<string>)
    ensures 1 <= |ids| <= 10
    ensures IsButtons(p) ==> |ids| <= 3
    ensures forall k :: 0 <= k < |ids| ==> ids[k] in AllOptionIds
  {
    match p
    case MainMenu => ["about_us", "it_services", "dwani_program", "certifications", "contact_us"]
    case DwaniButtons => ["internship_tracks", "certifications", "apply_form"]
    case InternshipList => ["intern_python_ai", "intern_flutter", "intern_web"]
    case ApplyButton => ["apply_form", "main_menu"]
    case BackToMenu => ["main_menu"]
    case ContactButton => ["contact_us", "main_menu"]
  }

  /** Every option id shown by any payload. */
  const AllOptionIds: set<string> :=
    {"about_us", "it_services", "dwani_program", "certifications", "contact_us",
     "internship_tracks", "apply_form", "intern_python_ai", "intern_flutter", "intern_web", "main_menu"}

  /** `AllOptionIds` is exactly the union of the payloads' option ids. */
  lemma AllOptionIdsExact(id: string)
    ensures id in AllOptionIds <==> exists p: Payload :: id in OptionIds(p)
  {
    if id in AllOptionIds {
      if id in OptionIds(MainMenu) {
      } else if id in OptionIds(DwaniButtons) {
      } else if id in OptionIds(InternshipList) {
      } else {
        assert id in OptionIds(BackToMenu);
      }
    }
  }

  /** Within one message no id is offered twice. */
  lemma OptionIdsDistinct(p: Payload)
    ensures forall i, j :: 0 <= i < j < |OptionIds(p)| ==> OptionIds(p)[i] != OptionIds(p)[j]
  {
  }
}
