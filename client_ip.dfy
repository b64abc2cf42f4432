/** The client address the authentication controller records with each password-reset
    request: the first hop of `X-Forwarded-For`, else the socket address. */
module ClientIp {
  import opened Wrappers
  import Text

  /** The `x-forwarded-for` header as Node.js presents it: missing, one string, or a list. */
  datatype Forwarded = Absent | Single(s: string) | Several(xs: seq<string>)

  /** `extractClientIp`; `ip` is `req.ip`. */
  function ExtractClientIp(forwarded: Forwarded, ip: Option<string>): (r: Option<string>)
    ensures forwarded.Single? && forwarded.s != "" ==> r == Some(Text.Trim(Text.Split(forwarded.s, ',')[0]))
    ensures forwarded.Several? && forwarded.xs != [] ==> r == Some(forwarded.xs[0])
    ensures forwarded.Absent? || forwarded == Single("") || forwarded == Several([]) ==> r == ip
  {
    match forwarded
    case Single(s) =>
      if |s| > 0 then Some(Text.Trim(Text.Split(s, ',')[0])) else ip
    case Several(xs) =>
      if |xs| > 0 then Some(xs[0]) else ip
    case Absent => ip
  }

  /** A string header yields a trimmed address without commas. */
  lemma SingleHeaderGivesTrimmedHop(s: string, ip: Option<string>)
    requires s != ""
    ensures var r := ExtractClientIp(Single(s), ip);
      r.Some? && ',' !in r.value && Text.Trim(r.value) == r.value
  {
    var first := Text.Split(s, ',')[0];
    Text.TrimIdempotent(first);
    var t := Text.Trim(first);
    assert forall k :: 0 <= k < |t| ==> t[k] == first[Text.LeadingSpaces(first) + k];
  }

  /** Only the first comma-separated segment matters: whatever follows the first comma
      never changes the answer. */
  lemma {:induction false} LaterHopsIgnored(s: string, t: string, ip: Option<string>)
    requires ',' !in s
    ensures ExtractClientIp(Single(s + [','] + t), ip) == Some(Text.Trim(s))
  {
    var h := s + [','] + t;
    assert h[|s|] == ',' && h[..|s|] == s;
    assert Text.IndexOf(h, ',') == |s|;
    assert Text.Split(h, ',')[0] == s;
  }
}
