/**
 * The bot's knowledge base and alias tables (main.py lines 25-88). The canned
 * answers themselves are opaque: a topic stands for the text filed under its
 * key, and the text is supplied by the caller where it is needed (see Delivery).
 */
module Kb {
  import opened Options

  /** One entry of the knowledge base. */
  datatype Topic = About | Services | DwaniIntro | Internships | Apply | Certifications | Contact | OutOfScope

  /** The dictionary key under which a topic's text is filed. */
  function Key(t: Topic): string
  {
    match t
    case About => "about"
    case Services => "services"
    case DwaniIntro => "dwani_intro"
    case Internships => "internships"
    case Apply => "apply"
    case Certifications => "certifications"
    case Contact => "contact"
    case OutOfScope => "oos"
  }

  /** The keys of the knowledge-base dictionary. */
  const Keys: set<string> := {"about", "services", "dwani_intro", "internships", "apply", "certifications", "contact", "oos"}

  /**
   * Dictionary lookup by key: the topic filed under `key`, or `None` for a
   * key that is not in the dictionary.
   */
  function Lookup(key: string): (r: Option<Topic>)
    ensures r.Some? <==> key in Keys
    ensures r.Some? ==> Key(r.value) == key
  {
    if key == "about" then Some(About)
    else if key == "services" then Some(Services)
    else if key == "dwani_intro" then Some(DwaniIntro)
    else if key == "internships" then Some(Internships)
    else if key == "apply" then Some(Apply)
    else if key == "certifications" then Some(Certifications)
    else if key == "contact" then Some(Contact)
    else if key == "oos" then Some(OutOfScope)
    else None
  }

  /** `KB[key]`: indexing, which the source only does with keys that are present. */
  function At(key: string): (t: Topic)
    requires key in Keys
    ensures Key(t) == key
  {
    Lookup(key).value
  }

  /** `KB.get(key, KB["oos"])`: the topic under `key`, the out-of-scope answer for an unknown key. */
  function GetOrOutOfScope(key: string): (t: Topic)
    ensures key in Keys ==> Key(t) == key
    ensures key !in Keys ==> t == OutOfScope
  {
    Lookup(key).GetOr(At("oos"))
  }

  /** Every topic's key is in the dictionary and leads back to that topic. */
  lemma KeyRoundTrip(t: Topic)
    ensures Key(t) in Keys
    ensures Lookup(Key(t)) == Some(t)
  {
  }

  // The alias table. Only `menu`, `dwani_intro`, `services` and `apply` are
  // consulted by the router; the other four sets are data that no code reads.
  const AboutAliases: set<string> := {"about", "company", "dream webies", "1"}
  const ServicesAliases: set<string> := {"services", "it services", "projects", "2"}
  const DwaniAliases: set<string> := {"dwani", "program", "student", "training", "dwani_program", "3"}
  const InternshipsAliases: set<string> := {"internship", "internships", "tracks", "internship_tracks"}
  const CertificationsAliases: set<string> := {"certificate", "certificates", "certifications", "4"}
  const ContactAliases: set<string> := {"contact", "phone", "email", "5"}
  const ApplyAliases: set<string> := {"apply", "application", "form", "register", "apply_form"}
  const MenuAliases: set<string> := {"hi", "hello", "start", "menu"}

  /** The aliases that no branch of the router consults. */
  const UnconsultedAliases: set<string> := AboutAliases + InternshipsAliases + CertificationsAliases + ContactAliases
}
