/** The deferred deep link built for a user's referral code
    (Services/DeepLinkService.cs). The random link id is drawn from
    `Random.Shared`; here the draws are a parameter. */
module DeepLinkService {
  import opened Ids
  import opened Outcomes

  const EmptyUserIdMessage := "User ID cannot be empty."
  const EmptyCodeMessage := "Referral code cannot be null or empty."
  const CodeLengthMessage := "Referral code must be between 6 and 12 characters long."

  const MinCodeLength := 6
  const MaxCodeLength := 12

  /** The alphabet the link id is drawn from. */
  const Characters := "abcdefghijklmnopqrstuvwxyz0123456789"
  const LinkIdLength := 11

  const LinkBase := "https://cartoncaps.link/"
  const CodeQuery := "?referralCode="

  /** `[a-z0-9]` */
  predicate IsLinkChar(c: char) {
    ('a' <= c <= 'z') || ('0' <= c <= '9')
  }

  predicate IsLinkId(s: string) {
    |s| == LinkIdLength && forall i :: 0 <= i < |s| ==> IsLinkChar(s[i])
  }

  /** Eleven readings of `Random.Shared.Next(36)`, one per character of the id. */
  predicate IsDraws(draws: seq<nat>) {
    |draws| == LinkIdLength && forall i :: 0 <= i < |draws| ==> draws[i] < |Characters|
  }

  /** The alphabet is exactly the lower-case letters and the digits. */
  lemma CharactersAreLinkChars()
    ensures |Characters| == 36
    ensures forall k :: 0 <= k < |Characters| ==> IsLinkChar(Characters[k])
  {
  }

  /** Picks one character of the alphabet per draw, in draw order. */
  function Pick(draws: seq<nat>): (s: string)
    requires forall i :: 0 <= i < |draws| ==> draws[i] < |Characters|
    ensures |s| == |draws|
    ensures forall i :: 0 <= i < |s| ==> s[i] == Characters[draws[i]]
  {
    if draws == [] then [] else [Characters[draws[0]]] + Pick(draws[1..])
  }

  /** GenerateDeepLinkId: eleven characters of `[a-z0-9]`. */
  function GenerateDeepLinkId(draws: seq<nat>): (id: string)
    requires IsDraws(draws)
    ensures IsLinkId(id)
  {
    CharactersAreLinkChars();
    Pick(draws)
  }

  /** The two parts a link is made of. */
  datatype LinkParts = LinkParts(linkId: string, referralCode: string)

  /** The interpolated string `https://cartoncaps.link/{id}?referralCode={code}`. */
  function FormatLink(linkId: string, referralCode: string): (link: string)
    ensures |link| == |LinkBase| + |linkId| + |CodeQuery| + |referralCode|
    ensures link[..|LinkBase|] == LinkBase
    ensures link[|LinkBase|..|LinkBase| + |linkId|] == linkId
    ensures link[|LinkBase| + |linkId|..|LinkBase| + |linkId| + |CodeQuery|] == CodeQuery
    ensures link[|link| - |referralCode|..] == referralCode
  {
    LinkBase + linkId + CodeQuery + referralCode
  }

  /** Reads a link back into its id and referral code; None for a string
      that is not of the generated shape. */
  function ParseLink(link: string): (p: Option<LinkParts>)
    ensures p.Some? ==> IsLinkId(p.value.linkId)
  {
    var idEnd := |LinkBase| + LinkIdLength;
    var codeStart := idEnd + |CodeQuery|;
    if |link| >= codeStart && link[..|LinkBase|] == LinkBase
       && IsLinkId(link[|LinkBase|..idEnd]) && link[idEnd..codeStart] == CodeQuery
    then Some(LinkParts(link[|LinkBase|..idEnd], link[codeStart..]))
    else None
  }

  /** The referral code a link carries, if it is of the generated shape. */
  function LinkCode(link: string): Option<string> {
    match ParseLink(link)
    case Some(p) => Some(p.referralCode)
    case None => None
  }

  /** Parsing undoes formatting. */
  lemma ParseFormat(linkId: string, referralCode: string)
    requires IsLinkId(linkId)
    ensures ParseLink(FormatLink(linkId, referralCode)) == Some(LinkParts(linkId, referralCode))
  {
  }

  /** Formatting undoes parsing: a link of the generated shape is exactly
      the one its parts format to. */
  lemma FormatParse(link: string)
    requires ParseLink(link).Some?
    ensures FormatLink(ParseLink(link).value.linkId, ParseLink(link).value.referralCode) == link
  {
  }

  /** GetDeepLink: three guards in order (user id, empty code, code length),
      then the link of a fresh id and the code. */
  function GetDeepLink(userId: Guid, referralCode: string, draws: seq<nat>): (r: Result<string>)
    requires IsDraws(draws)
    ensures userId == Empty ==> r == Failure(Argument(EmptyUserIdMessage, "userId"))
    ensures userId != Empty && referralCode == [] ==>
      r == Failure(Argument(EmptyCodeMessage, "referralCode"))
    ensures (userId != Empty && referralCode != []
             && (|referralCode| < MinCodeLength || |referralCode| > MaxCodeLength)) ==>
      r == Failure(Argument(CodeLengthMessage, "referralCode"))
    ensures r.Success? <==> userId != Empty && MinCodeLength <= |referralCode| <= MaxCodeLength
    ensures r.Success? ==>
      ParseLink(r.value) == Some(LinkParts(GenerateDeepLinkId(draws), referralCode))
  {
    if userId == Empty then Failure(Argument(EmptyUserIdMessage, "userId"))
    else if referralCode == [] then Failure(Argument(EmptyCodeMessage, "referralCode"))
    else if |referralCode| < MinCodeLength || |referralCode| > MaxCodeLength then
      Failure(Argument(CodeLengthMessage, "referralCode"))
    else
      var linkId := GenerateDeepLinkId(draws);
      ParseFormat(linkId, referralCode);
      Success(FormatLink(linkId, referralCode))
  }

  /** A generated link ends with the referral code and is 49 characters longer. */
  lemma DeepLinkEndsWithCode(userId: Guid, referralCode: string, draws: seq<nat>)
    requires IsDraws(draws) && GetDeepLink(userId, referralCode, draws).Success?
    ensures var link := GetDeepLink(userId, referralCode, draws).value;
      |link| == |LinkBase| + LinkIdLength + |CodeQuery| + |referralCode|
      && link[|link| - |referralCode|..] == referralCode
      && LinkCode(link) == Some(referralCode)
  {
  }

  /** The user id is validated but not embedded: any two non-empty ids give
      the same link. */
  lemma DeepLinkIgnoresUserId(a: Guid, b: Guid, referralCode: string, draws: seq<nat>)
    requires IsDraws(draws) && a != Empty && b != Empty
    ensures GetDeepLink(a, referralCode, draws) == GetDeepLink(b, referralCode, draws)
  {
  }
}
