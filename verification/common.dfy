/**
 Shared vocabulary of the NIV Scholar model: an optional value, a chat turn
 and the verse context that annotates prompts and saved insights.
 */
module Common {

  /** A value that may be absent (JavaScript `undefined` / `null`). */
  datatype Option<+T> = None | Some(value: T)

  /** One message of a conversation, as sent to the completion API. */
  datatype Turn = Turn(role: string, content: string)

  const SystemRole: string := "system"
  const UserRole: string := "user"
  const AssistantRole: string := "assistant"

  /** The first line of the persona instruction that opens every request. */
  const PersonaOpening: string :=
    "You are NIV Scholar, a wise and knowledgeable biblical scholar with expertise in:"

  /**
   The persona as a template literal writes it when every later line,
   blank ones included, carries the source's indentation `indent`.
   */
  function PersonaText(indent: string): string
  {
    PersonaOpening + "\n" + indent + "- " + PersonaBody(indent)
  }

  // The persona's lines, without their indentation or bullet.
  const ExpertiseHistory: string := "Historical context of biblical times"
  const ExpertiseLanguages: string := "Hebrew and Greek word studies"
  const ExpertiseArchaeology: string := "Archaeological discoveries and their significance"
  const ExpertiseCriticism: string := "Textual criticism and manuscript traditions"
  const ExpertiseTheology: string := "Theological themes and their development"
  const ExpertiseInterpretation: string := "Cross-references and biblical interpretation"
  const PersonalityHeading: string := "Your personality is:"
  const TraitApproachable: string := "Scholarly yet approachable"
  const TraitRespectful: string := "Respectful of diverse theological perspectives"
  const TraitThorough: string := "Thorough in explanations but not overly technical"
  const TraitContemplative: string := "Contemplative and thoughtful in responses"
  const TraitPassionate: string := "Passionate about helping others understand scripture"
  const GuideLinks: string := "Always format biblical references as clickable links (e.g., John 3:16)."
  const GuideLanguages: string := "When discussing original languages, provide both Hebrew/Greek terms and their meanings."
  const GuideContext: string := "Include relevant historical context and cultural background."
  const GuideRelated: string := "Suggest related passages for further study."
  const GuideBalance: string := "Avoid dogmatic statements; instead, present scholarly consensus and different viewpoints."

  /** The persona after the bullet that opens its second line. */
  function PersonaBody(indent: string): string
  {
    ExpertiseHistory
    + "\n" + indent + "- " + ExpertiseLanguages
    + "\n" + indent + "- " + ExpertiseArchaeology
    + "\n" + indent + "- " + ExpertiseCriticism
    + "\n" + indent + "- " + ExpertiseTheology
    + "\n" + indent + "- " + ExpertiseInterpretation
    + "\n" + indent
    + "\n" + indent + PersonalityHeading
    + "\n" + indent + "- " + TraitApproachable
    + "\n" + indent + "- " + TraitRespectful
    + "\n" + indent + "- " + TraitThorough
    + "\n" + indent + "- " + TraitContemplative
    + "\n" + indent + "- " + TraitPassionate
    + "\n" + indent
    + "\n" + indent + GuideLinks
    + "\n" + indent + GuideLanguages
    + "\n" + indent + GuideContext
    + "\n" + indent + GuideRelated
    + "\n" + indent + GuideBalance
  }

  /** The proxy's literal indents its later lines by four spaces. */
  const ServerIndent: string := "    "
  /** The client's literal sits deeper, in a class, and indents by twelve. */
  const ClientIndent: string := "            "

  /** The system turn the proxy puts first. */
  function ServerPersonaTurn(): Turn
  {
    Turn(SystemRole, PersonaText(ServerIndent))
  }

  /** The system turn the browser client stores as its `scholarContext`. */
  function ClientPersonaTurn(): Turn
  {
    Turn(SystemRole, PersonaText(ClientIndent))
  }

  /**
   Whatever follows, the two layouts differ: the second line starts its
   bullet at its fifth character in the proxy's text and is still indented
   there in the client's.
   */
  lemma IndentsDiffer(serverBody: string, clientBody: string)
    ensures PersonaOpening + "\n" + ServerIndent + "- " + serverBody
         != PersonaOpening + "\n" + ClientIndent + "- " + clientBody
  {
    var i := |PersonaOpening| + 5;
    assert (PersonaOpening + "\n" + ServerIndent + "- " + serverBody)[i] == '-';
    assert (PersonaOpening + "\n" + ClientIndent + "- " + clientBody)[i] == ' ';
  }

  /** The proxy and the client open their requests with different system turns. */
  lemma PersonasDiffer()
    ensures ServerPersonaTurn() != ClientPersonaTurn()
  {
    IndentsDiffer(PersonaBody(ServerIndent), PersonaBody(ClientIndent));
  }

  /**
   The selected scripture locus. Every field is a string because it comes
   from a select element's value or from splitting a reference; `verse` is
   absent when a looked-up reference has no ':' in its last word.
   */
  datatype VerseContext = VerseContext(book: string, chapter: string, verse: Option<string>)

  /** How a template literal renders a possibly-undefined string. */
  function Render(o: Option<string>): string
  {
    match o
    case Some(s) => s
    case None => "undefined"
  }

  /** The "book chapter:verse" label used in prompts and notebook cards. */
  function VerseLabel(v: VerseContext): string
  {
    v.book + " " + v.chapter + ":" + Render(v.verse)
  }

  /** `s` ends with `suffix`. */
  predicate EndsWith(s: string, suffix: string)
  {
    |suffix| <= |s| && s[|s| - |suffix|..] == suffix
  }
}
