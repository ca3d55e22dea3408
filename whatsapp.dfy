/** The floating WhatsApp button of a public profile: the greeting it pre-fills and the `wa.me`
    link it opens. `encodeURIComponent` is a parameter `encode`. */
module WhatsApp {
  import opened Common
  import opened JsText

  /** `s.replace(/\s/g, '')`: every white-space character removed. */
  function RemoveWhitespace(s: string): (r: string)
    ensures |r| <= |s|
    ensures forall i :: 0 <= i < |r| ==> !IsJsWhiteSpace(r[i])
    ensures (forall i :: 0 <= i < |s| ==> !IsJsWhiteSpace(s[i])) ==> r == s
  {
    if s == [] then []
    else (if IsJsWhiteSpace(s[0]) then [] else [s[0]]) + RemoveWhitespace(s[1..])
  }

  /** Removal works piece by piece: the kept characters of `a + b` are those of `a`, then those
      of `b`, each in order. */
  lemma {:induction false} RemoveWhitespaceAppend(a: string, b: string)
    ensures RemoveWhitespace(a + b) == RemoveWhitespace(a) + RemoveWhitespace(b)
  {
    if a == [] {
      assert a + b == b;
    } else {
      assert (a + b)[1..] == a[1..] + b;
      RemoveWhitespaceAppend(a[1..], b);
    }
  }

  /** One character is dropped exactly when it is white space. With `RemoveWhitespaceAppend` this
      fixes the result of any string: its characters that are not white space, in order. */
  lemma RemoveWhitespaceChar(c: char)
    ensures RemoveWhitespace([c]) == if IsJsWhiteSpace(c) then [] else [c]
  {
    assert [c][1..] == [];
  }

  /** Removing white space twice is removing it once. */
  lemma RemoveWhitespaceIdempotent(s: string)
    ensures RemoveWhitespace(RemoveWhitespace(s)) == RemoveWhitespace(s)
  {
  }

  /** A space between two runs free of white space is dropped, and nothing else is. */
  lemma DropsSeparatingSpace(a: string, b: string)
    requires forall i :: 0 <= i < |a| ==> !IsJsWhiteSpace(a[i])
    requires forall i :: 0 <= i < |b| ==> !IsJsWhiteSpace(b[i])
    ensures RemoveWhitespace(a + " " + b) == a + b
  {
    RemoveWhitespaceAppend(a + " ", b);
    RemoveWhitespaceAppend(a, " ");
    assert RemoveWhitespace(" ") == [];
    assert a + [] == a;
  }

  /** A formatted number loses only its spaces: "77 123" becomes "77123". */
  lemma SpacedNumberExample()
    ensures RemoveWhitespace("77 123") == "77123"
  {
    DropsSeparatingSpace("77", "123");
    SpacedNumberPieces();
  }

  lemma SpacedNumberPieces()
    ensures "77" + " " + "123" == "77 123" && "77" + "123" == "77123"
  {
  }

  const Greeting := "Bonjour "
  const Request := ", je souhaite obtenir plus d'informations"

  /** The pre-filled message: the greeting, the company name, the request. */
  function Message(companyName: string): (m: string)
    ensures |m| == |Greeting| + |companyName| + |Request|
    ensures m[..|Greeting|] == Greeting && m[|Greeting| + |companyName|..] == Request
    ensures m[|Greeting|..|Greeting| + |companyName|] == companyName
  {
    Greeting + companyName + Request
  }

  /** Different companies get different messages. */
  lemma MessageInjective(a: string, b: string)
    requires Message(a) == Message(b)
    ensures a == b
  {
    assert a == Message(a)[|Greeting|..|Greeting| + |a|];
  }

  const LinkBase := "https://wa.me/"
  const TextParameter := "?text="

  /** The link the button opens, or `None` when the profile has no number (absent or ""), in which
      case no button is shown. */
  function WhatsAppUrl(whatsapp: Option<string>, companyName: string, encode: string -> string)
    : (url: Option<string>)
    ensures url.None? <==> whatsapp.None? || whatsapp.value == ""
  {
    match whatsapp
    case None => None
    case Some(number) =>
      if number == "" then None
      else Some(LinkBase + RemoveWhitespace(number) + TextParameter + encode(Message(companyName)))
  }

  /** The link is the base, then the number with no white space, then the encoded message. */
  lemma UrlParts(number: string, companyName: string, encode: string -> string)
    requires number != ""
    ensures var url := WhatsAppUrl(Some(number), companyName, encode).value;
      var digits := RemoveWhitespace(number);
      var rest := url[|LinkBase|..];
      url[..|LinkBase|] == LinkBase
      && rest[..|digits|] == digits
      && (forall i :: 0 <= i < |digits| ==> !IsJsWhiteSpace(rest[i]))
      && rest[|digits|..] == TextParameter + encode(Message(companyName))
  {
    var digits := RemoveWhitespace(number);
    var tail := TextParameter + encode(Message(companyName));
    assert WhatsAppUrl(Some(number), companyName, encode).value == LinkBase + digits + tail;
    ThreeParts(LinkBase, digits, tail);
  }

  /** The three pieces of `a + b + c` can be read back by slicing. */
  lemma ThreeParts(a: string, b: string, c: string)
    ensures var s := a + b + c;
      s[..|a|] == a && s[|a|..][..|b|] == b && s[|a|..][|b|..] == c
  {
    assert a + b + c == a + (b + c);
  }

  /** A number made only of white space passes the guard and yields a link that names nobody. */
  lemma BlankNumberGivesNumberlessLink(companyName: string, encode: string -> string)
    ensures WhatsAppUrl(Some(" "), companyName, encode)
      == Some(LinkBase + TextParameter + encode(Message(companyName)))
  {
    assert RemoveWhitespace(" ") == [];
    assert LinkBase + [] == LinkBase;
  }

  /** The guard on what is left once white space is removed: no button unless a character
      remains for the number. */
  function CheckedWhatsAppUrl(whatsapp: Option<string>, companyName: string, encode: string -> string)
    : (url: Option<string>)
    ensures url.None? <==> whatsapp.None? || RemoveWhitespace(whatsapp.value) == ""
    ensures url.Some? ==> url == WhatsAppUrl(whatsapp, companyName, encode)
  {
    match whatsapp
    case None => None
    case Some(number) =>
      if RemoveWhitespace(number) == "" then None
      else Some(LinkBase + RemoveWhitespace(number) + TextParameter + encode(Message(companyName)))
  }

  /** Every link the checked guard produces carries a non-empty number segment. */
  lemma CheckedUrlNamesNumber(whatsapp: Option<string>, companyName: string, encode: string -> string)
    requires CheckedWhatsAppUrl(whatsapp, companyName, encode).Some?
    ensures var url := CheckedWhatsAppUrl(whatsapp, companyName, encode).value;
      var digits := RemoveWhitespace(whatsapp.value);
      digits != "" && url[|LinkBase|..][..|digits|] == digits
  {
    UrlParts(whatsapp.value, companyName, encode);
  }
}
