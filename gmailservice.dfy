/** The message handling of the Gmail service: finding a MIME part, reading a fetched
    message into the inbox's record, the subjects of replies and forwards, and the
    base64url alphabet of outgoing and incoming text. The Gmail API and the browser's
    base64 and UTF-8 conversions are parameters. */
module GmailService {
  import opened Common

  // ---------------------------------------------------------------------------
  // MIME parts

  /** A MIME part: its type, its body data when present, and its sub-parts, which
      count only when `hasParts` says the `parts` field is present (an empty array is
      still present). */
  datatype Part = Part(mimeType: string, data: Option<string>, hasParts: bool, parts: seq<Part>)

  /** `findPart`: the first part of that type, looking into a part's sub-parts before
      its later siblings. */
  function FindPart(parts: seq<Part>, mimeType: string): Option<Part>
    decreases parts
  {
    if parts == [] then None
    else
      var found := FindInPart(parts[0], mimeType);
      if found.Some? then found else FindPart(parts[1..], mimeType)
  }

  /** One turn of `findPart`'s loop: the part itself, or else a search of its sub-parts. */
  function FindInPart(part: Part, mimeType: string): Option<Part>
    decreases part
  {
    if part.mimeType == mimeType then Some(part)
    else if part.hasParts then FindPart(part.parts, mimeType)
    else None
  }

  /** Every part, each before its sub-parts and those before its later siblings. */
  function Preorder(parts: seq<Part>): seq<Part>
    decreases parts
  {
    if parts == [] then [] else PartPreorder(parts[0]) + Preorder(parts[1..])
  }

  function PartPreorder(part: Part): seq<Part>
    decreases part
  {
    [part] + (if part.hasParts then Preorder(part.parts) else [])
  }

  /** The first element of a list with that type. */
  function FirstOfType(s: seq<Part>, mimeType: string): (r: Option<Part>)
    ensures r.None? <==> forall p | p in s :: p.mimeType != mimeType
    ensures r.Some? ==> r.value in s && r.value.mimeType == mimeType
  {
    if s == [] then None
    else if s[0].mimeType == mimeType then Some(s[0])
    else FirstOfType(s[1..], mimeType)
  }

  lemma {:induction false} FirstOfTypeAppend(a: seq<Part>, b: seq<Part>, mimeType: string)
    ensures FirstOfType(a + b, mimeType) ==
      if FirstOfType(a, mimeType).Some? then FirstOfType(a, mimeType) else FirstOfType(b, mimeType)
  {
    if a != [] {
      assert (a + b)[1..] == a[1..] + b;
      FirstOfTypeAppend(a[1..], b, mimeType);
    } else {
      assert a + b == b;
    }
  }

  /** The search finds the first part of the type in pre-order, and nothing exactly
      when no part at any depth has it. */
  lemma {:induction false} FindPartIsFirstInPreorder(parts: seq<Part>, mimeType: string)
    ensures FindPart(parts, mimeType) == FirstOfType(Preorder(parts), mimeType)
    decreases parts
  {
    if parts != [] {
      FindInPartIsFirst(parts[0], mimeType);
      FindPartIsFirstInPreorder(parts[1..], mimeType);
      FirstOfTypeAppend(PartPreorder(parts[0]), Preorder(parts[1..]), mimeType);
    }
  }

  lemma {:induction false} FindInPartIsFirst(part: Part, mimeType: string)
    ensures FindInPart(part, mimeType) == FirstOfType(PartPreorder(part), mimeType)
    decreases part
  {
    var inner := if part.hasParts then Preorder(part.parts) else [];
    assert PartPreorder(part)[1..] == inner;
    if part.hasParts {
      FindPartIsFirstInPreorder(part.parts, mimeType);
    }
  }

  lemma {:induction false} PreorderAppend(a: seq<Part>, b: seq<Part>)
    ensures Preorder(a + b) == Preorder(a) + Preorder(b)
  {
    if a == [] {
      assert a + b == b;
    } else {
      assert (a + b)[1..] == a[1..] + b;
      PreorderAppend(a[1..], b);
    }
  }

  lemma PreorderSnoc(a: seq<Part>, p: Part)
    ensures Preorder(a + [p]) == Preorder(a) + PartPreorder(p)
  {
    PreorderAppend(a, [p]);
    assert Preorder([p]) == PartPreorder(p) + Preorder([]);
  }

  /** `findPart` as written: a loop over the parts that returns the first match, and
      searches a part's sub-parts before moving on. It finds the first part of the
      type in pre-order. */
  method SearchParts(parts: seq<Part>, mimeType: string) returns (found: Option<Part>)
    ensures found == FirstOfType(Preorder(parts), mimeType)
    decreases parts
  {
    var i := 0;
    while i < |parts|
      invariant 0 <= i <= |parts|
      invariant FirstOfType(Preorder(parts[..i]), mimeType).None?
    {
      var part := parts[i];
      assert parts == parts[..i] + [part] + parts[i + 1..];
      PreorderAppend(parts[..i] + [part], parts[i + 1..]);
      PreorderSnoc(parts[..i], part);
      FirstOfTypeAppend(Preorder(parts[..i]), PartPreorder(part), mimeType);
      FirstOfTypeAppend(Preorder(parts[..i]) + PartPreorder(part), Preorder(parts[i + 1..]), mimeType);
      if part.mimeType == mimeType {
        assert FirstOfType(PartPreorder(part), mimeType) == Some(part);
        return Some(part);
      }
      if part.hasParts {
        var inner := SearchParts(part.parts, mimeType);
        assert PartPreorder(part)[1..] == Preorder(part.parts);
        if inner.Some? {
          return inner;
        }
      } else {
        assert PartPreorder(part) == [part];
      }
      assert parts[..i + 1] == parts[..i] + [part];
      i := i + 1;
    }
    assert parts[..i] == parts;
    return None;
  }

  // ---------------------------------------------------------------------------
  // Reading a message

  datatype Header = Header(name: string, value: string)

  datatype Payload = Payload(headers: seq<Header>, parts: Option<seq<Part>>, data: Option<string>)

  datatype RawMessage = RawMessage(id: string, threadId: string, payload: Payload, internalDate: string,
    snippet: string, labelIds: Option<seq<string>>)

  /** The record the inbox keeps; `date` is None when it reads as an invalid date. */
  datatype Message = Message(id: string, threadId: string, subject: string, from: string, to: string,
    date: Option<int>, body: string, snippet: string, isUnread: bool)

  /** `getHeader`: the value of the first header whose name matches, ignoring case, or "". */
  function GetHeader(headers: seq<Header>, name: string): (r: string)
    ensures (forall h | h in headers :: Lower(h.name) != Lower(name)) ==> r == ""
  {
    if headers == [] then ""
    else if Lower(headers[0].name) == Lower(name) then headers[0].value
    else GetHeader(headers[1..], name)
  }

  /** The first matching header decides. */
  lemma {:induction false} GetHeaderFirstMatch(headers: seq<Header>, name: string, k: nat)
    requires k < |headers| && Lower(headers[k].name) == Lower(name)
    requires forall j | 0 <= j < k :: Lower(headers[j].name) != Lower(name)
    ensures GetHeader(headers, name) == headers[k].value
  {
    if k > 0 {
      GetHeaderFirstMatch(headers[1..], name, k - 1);
    }
  }

  /** The case of the name asked for makes no difference. */
  lemma {:induction false} GetHeaderIgnoresCase(headers: seq<Header>, name: string)
    ensures GetHeader(headers, Lower(name)) == GetHeader(headers, name)
  {
    LowerIdempotent(name);
    if headers != [] {
      GetHeaderIgnoresCase(headers[1..], name);
    }
  }

  /** `data.replace(/-/g, "+").replace(/_/g, "/")`. */
  function FromUrlChar(c: char): char {
    if c == '-' then '+' else if c == '_' then '/' else c
  }

  function ToUrlChar(c: char): char {
    if c == '+' then '-' else if c == '/' then '_' else c
  }

  function FromBase64Url(s: string): (r: string)
    ensures |r| == |s| && forall i | 0 <= i < |s| :: r[i] == FromUrlChar(s[i])
  {
    seq(|s|, i requires 0 <= i < |s| => FromUrlChar(s[i]))
  }

  function MapToUrl(s: string): (r: string)
    ensures |r| == |s| && forall i | 0 <= i < |s| :: r[i] == ToUrlChar(s[i])
  {
    seq(|s|, i requires 0 <= i < |s| => ToUrlChar(s[i]))
  }

  /** `.replace(/=+$/, "")`: every trailing '=' removed. */
  function TrimPadding(s: string): (r: string)
    ensures |r| <= |s| && r == s[..|r|]
    ensures r == [] || r[|r| - 1] != '='
    ensures forall i | |r| <= i < |s| :: s[i] == '='
  {
    if s != [] && s[|s| - 1] == '=' then TrimPadding(s[..|s| - 1]) else s
  }

  /** The base64url form of a base64 text, as sent in the `raw` field. */
  function ToBase64Url(b64: string): (r: string)
    ensures '+' !in r && '/' !in r
    ensures r == [] || r[|r| - 1] != '='
  {
    var m := MapToUrl(b64);
    var r := TrimPadding(m);
    assert forall i | 0 <= i < |r| :: r[i] == m[i];
    r
  }

  /** `decodeBase64`: the standard alphabet restored and the text decoded, or the input
      itself when decoding throws (`decode` gives None). */
  function DecodeBase64(data: string, decode: string -> Option<string>): (r: string)
    ensures decode(FromBase64Url(data)).None? ==> r == data
    ensures decode(FromBase64Url(data)).Some? ==> r == decode(FromBase64Url(data)).value
  {
    match decode(FromBase64Url(data))
    case Some(text) => text
    case None => data
  }

  lemma MapToUrlPrefix(s: string, k: nat)
    requires k <= |s|
    ensures MapToUrl(s)[..k] == MapToUrl(s[..k])
  {
  }

  /** Trimming the padding and changing the alphabet can be done in either order. */
  lemma {:induction false} TrimPaddingOfMapped(s: string)
    ensures TrimPadding(MapToUrl(s)) == MapToUrl(TrimPadding(s))
  {
    if s != [] {
      var init := s[..|s| - 1];
      MapToUrlPrefix(s, |s| - 1);
      if s[|s| - 1] == '=' {
        TrimPaddingOfMapped(init);
      }
    }
  }

  /** Reading back what was sent gives the base64 text without its padding. */
  lemma FromUrlAfterToUrl(b64: string)
    requires '-' !in b64 && '_' !in b64
    ensures FromBase64Url(ToBase64Url(b64)) == TrimPadding(b64)
  {
    var t := TrimPadding(b64);
    ToBase64UrlIsMapped(b64);
    assert forall i | 0 <= i < |t| :: t[i] in b64;
    FromUrlOfMapped(t);
  }

  lemma ToBase64UrlIsMapped(b64: string)
    ensures ToBase64Url(b64) == MapToUrl(TrimPadding(b64))
  {
    TrimPaddingOfMapped(b64);
  }

  /** The base64url alphabet change is undone when the text has no '-' or '_'. */
  lemma FromUrlOfMapped(t: string)
    requires forall i | 0 <= i < |t| :: t[i] != '-' && t[i] != '_'
    ensures FromBase64Url(MapToUrl(t)) == t
  {
    var back := FromBase64Url(MapToUrl(t));
    assert forall i | 0 <= i < |t| :: back[i] == t[i];
  }

  /** A base64url text without padding is sent back unchanged. */
  lemma ToUrlAfterFromUrl(u: string)
    requires '+' !in u && '/' !in u && (u == [] || u[|u| - 1] != '=')
    ensures ToBase64Url(FromBase64Url(u)) == u
  {
    var m := MapToUrl(FromBase64Url(u));
    assert m == u;
  }

  /** The body: with parts, the first HTML part with data, else the first plain-text
      part with data; without parts, the payload's own data; otherwise "". */
  function BodyOf(payload: Payload, decode: string -> Option<string>): (body: string)
    ensures payload.parts.None? && !Present(payload.data) ==> body == ""
    ensures payload.parts.None? && Present(payload.data) ==> body == DecodeBase64(payload.data.value, decode)
  {
    if payload.parts.Some? then
      var html := FindPart(payload.parts.value, "text/html");
      if html.Some? && Present(html.value.data) then DecodeBase64(html.value.data.value, decode)
      else
        var plain := FindPart(payload.parts.value, "text/plain");
        if plain.Some? && Present(plain.value.data) then DecodeBase64(plain.value.data.value, decode)
        else ""
    else if Present(payload.data) then DecodeBase64(payload.data.value, decode)
    else ""
  }

  /** With parts, the HTML part is preferred, and the plain-text part is used exactly
      when the first HTML part is missing or has no data. */
  lemma BodyPrefersHtml(payload: Payload, decode: string -> Option<string>)
    requires payload.parts.Some?
    ensures var html := FirstOfType(Preorder(payload.parts.value), "text/html");
      var plain := FirstOfType(Preorder(payload.parts.value), "text/plain");
      BodyOf(payload, decode) ==
        if html.Some? && Present(html.value.data) then DecodeBase64(html.value.data.value, decode)
        else if plain.Some? && Present(plain.value.data) then DecodeBase64(plain.value.data.value, decode)
        else ""
  {
    FindPartIsFirstInPreorder(payload.parts.value, "text/html");
    FindPartIsFirstInPreorder(payload.parts.value, "text/plain");
  }

  /** The body as `parseMessage` assigns it, using the searching loop. */
  method ParseBody(payload: Payload, decode: string -> Option<string>) returns (body: string)
    ensures body == BodyOf(payload, decode)
  {
    body := "";
    if payload.parts.Some? {
      FindPartIsFirstInPreorder(payload.parts.value, "text/html");
      FindPartIsFirstInPreorder(payload.parts.value, "text/plain");
      var html := SearchParts(payload.parts.value, "text/html");
      if html.Some? && Present(html.value.data) {
        body := DecodeBase64(html.value.data.value, decode);
      } else {
        var plain := SearchParts(payload.parts.value, "text/plain");
        if plain.Some? && Present(plain.value.data) {
          body := DecodeBase64(plain.value.data.value, decode);
        }
      }
    } else if Present(payload.data) {
      body := DecodeBase64(payload.data.value, decode);
    }
  }

  /** `parseMessage`. */
  function ParseMessage(m: RawMessage, decode: string -> Option<string>): (r: Message)
    ensures r.id == m.id && r.threadId == m.threadId && r.snippet == m.snippet
    ensures r.subject != ""
    ensures GetHeader(m.payload.headers, "Subject") != "" ==> r.subject == GetHeader(m.payload.headers, "Subject")
    ensures GetHeader(m.payload.headers, "Subject") == "" ==> r.subject == "(No Subject)"
    ensures r.from == GetHeader(m.payload.headers, "From") && r.to == GetHeader(m.payload.headers, "To")
    ensures r.isUnread <==> m.labelIds.Some? && "UNREAD" in m.labelIds.value
    ensures r.body == BodyOf(m.payload, decode)
    ensures r.date == ParseInt(m.internalDate)
  {
    var subject := GetHeader(m.payload.headers, "Subject");
    Message(m.id, m.threadId, if subject != "" then subject else "(No Subject)",
      GetHeader(m.payload.headers, "From"), GetHeader(m.payload.headers, "To"),
      ParseInt(m.internalDate), BodyOf(m.payload, decode), m.snippet,
      m.labelIds.Some? && "UNREAD" in m.labelIds.value)
  }

  // ---------------------------------------------------------------------------
  // Reply and forward subjects

  function ReplySubject(subject: string): (r: string)
    ensures StartsWith(r, "Re:")
    ensures StartsWith(subject, "Re:") ==> r == subject
    ensures !StartsWith(subject, "Re:") ==> r == "Re: " + subject
  {
    if StartsWith(subject, "Re:") then subject else "Re: " + subject
  }

  function ForwardSubject(subject: string): (r: string)
    ensures StartsWith(r, "Fwd:")
    ensures StartsWith(subject, "Fwd:") ==> r == subject
    ensures !StartsWith(subject, "Fwd:") ==> r == "Fwd: " + subject
  {
    if StartsWith(subject, "Fwd:") then subject else "Fwd: " + subject
  }

  /** Replying to a reply adds no second prefix. */
  lemma ReplySubjectIdempotent(subject: string)
    ensures ReplySubject(ReplySubject(subject)) == ReplySubject(subject)
  {
  }

  /** Forwarding a forward adds no second prefix. */
  lemma ForwardSubjectIdempotent(subject: string)
    ensures ForwardSubject(ForwardSubject(subject)) == ForwardSubject(subject)
  {
  }

  /** The prefix is case-sensitive: a lower-case one gets a second prefix. */
  lemma ReplySubjectIsCaseSensitive()
    ensures ReplySubject("re: plans") == "Re: re: plans"
  {
    assert "re: plans"[..3] != "Re:" by {
      assert "re: plans"[0] == 'r';
    }
  }
}
