/** The contact endpoint (`src/app/api/send-contact/route.ts`): the decision the
    `POST` handler takes before any mail is sent, and the HTML escaping it applies
    to the visitor's text. */
module SendContact {
  import opened Options

  // ---------------------------------------------------------------------------
  // escapeHtml
  // ---------------------------------------------------------------------------

  /** `s.replace(/c/g, rep)`: every occurrence of `c`, left to right, becomes `rep`. */
  function ReplaceAll(s: string, c: char, rep: string): (r: string)
    ensures |rep| >= 1 ==> |r| >= |s|
    ensures c !in rep ==> c !in r
  {
    if s == [] then [] else (if s[0] == c then rep else [s[0]]) + ReplaceAll(s[1..], c, rep)
  }

  /** A text without `c` is left as it is. */
  lemma {:induction false} ReplaceAllAbsent(s: string, c: char, rep: string)
    requires c !in s
    ensures ReplaceAll(s, c, rep) == s
  {
    if s != [] {
      assert s == [s[0]] + s[1..];
      ReplaceAllAbsent(s[1..], c, rep);
    }
  }

  /** A character missing from the text and from the replacement stays missing. */
  lemma {:induction false} ReplaceAllKeepsAbsent(s: string, c: char, rep: string, d: char)
    requires d !in s && d !in rep
    ensures d !in ReplaceAll(s, c, rep)
  {
    if s != [] {
      assert s[0] != d;
      ReplaceAllKeepsAbsent(s[1..], c, rep, d);
    }
  }

  /** Replacing in a one-character text. */
  lemma ReplaceAllSingle(x: char, c: char, rep: string)
    ensures ReplaceAll([x], c, rep) == if x == c then rep else [x]
  {
    assert [x][1..] == [];
  }

  lemma {:induction false} ReplaceAllConcat(a: string, b: string, c: char, rep: string)
    ensures ReplaceAll(a + b, c, rep) == ReplaceAll(a, c, rep) + ReplaceAll(b, c, rep)
  {
    if a == [] {
      assert a + b == b;
    } else {
      assert (a + b)[1..] == a[1..] + b;
      ReplaceAllConcat(a[1..], b, c, rep);
    }
  }

  /** `escapeHtml`: five global replacements, `&` first. */
  function EscapeHtml(s: string): string {
    var amp := ReplaceAll(s, '&', "&amp;");
    var lt := ReplaceAll(amp, '<', "&lt;");
    var gt := ReplaceAll(lt, '>', "&gt;");
    var quot := ReplaceAll(gt, '"', "&quot;");
    ReplaceAll(quot, '\'', "&#39;")
  }

  /** The entity a single character is written as. */
  function EscapeChar(c: char): string {
    if c == '&' then "&amp;"
    else if c == '<' then "&lt;"
    else if c == '>' then "&gt;"
    else if c == '"' then "&quot;"
    else if c == '\'' then "&#39;"
    else [c]
  }

  /** Reference escaping: each input character escaped exactly once, in one pass. */
  function EscapeEach(s: string): string {
    if s == [] then [] else EscapeChar(s[0]) + EscapeEach(s[1..])
  }

  lemma EscapeHtmlConcat(a: string, b: string)
    ensures EscapeHtml(a + b) == EscapeHtml(a) + EscapeHtml(b)
  {
    var a1, b1 := ReplaceAll(a, '&', "&amp;"), ReplaceAll(b, '&', "&amp;");
    ReplaceAllConcat(a, b, '&', "&amp;");
    var a2, b2 := ReplaceAll(a1, '<', "&lt;"), ReplaceAll(b1, '<', "&lt;");
    ReplaceAllConcat(a1, b1, '<', "&lt;");
    var a3, b3 := ReplaceAll(a2, '>', "&gt;"), ReplaceAll(b2, '>', "&gt;");
    ReplaceAllConcat(a2, b2, '>', "&gt;");
    var a4, b4 := ReplaceAll(a3, '"', "&quot;"), ReplaceAll(b3, '"', "&quot;");
    ReplaceAllConcat(a3, b3, '"', "&quot;");
    ReplaceAllConcat(a4, b4, '\'', "&#39;");
  }

  // Text holding none of the characters that a tail of the chain replaces is
  // left unchanged by that tail; each entity survives the steps after its own.

  lemma StepsFromLtKeep(t: string)
    requires '<' !in t && '>' !in t && '"' !in t && '\'' !in t
    ensures ReplaceAll(ReplaceAll(ReplaceAll(ReplaceAll(t, '<', "&lt;"), '>', "&gt;"), '"', "&quot;"), '\'', "&#39;") == t
  {
    ReplaceAllAbsent(t, '<', "&lt;");
    StepsFromGtKeep(t);
  }

  lemma StepsFromGtKeep(t: string)
    requires '>' !in t && '"' !in t && '\'' !in t
    ensures ReplaceAll(ReplaceAll(ReplaceAll(t, '>', "&gt;"), '"', "&quot;"), '\'', "&#39;") == t
  {
    ReplaceAllAbsent(t, '>', "&gt;");
    StepsFromQuotKeep(t);
  }

  lemma StepsFromQuotKeep(t: string)
    requires '"' !in t && '\'' !in t
    ensures ReplaceAll(ReplaceAll(t, '"', "&quot;"), '\'', "&#39;") == t
  {
    ReplaceAllAbsent(t, '"', "&quot;");
    ReplaceAllAbsent(t, '\'', "&#39;");
  }

  lemma EscapeHtmlChar(c: char)
    ensures EscapeHtml([c]) == EscapeChar(c)
  {
    ReplaceAllSingle(c, '&', "&amp;");
    if c == '&' {
      StepsFromLtKeep("&amp;");
    } else {
      ReplaceAllSingle(c, '<', "&lt;");
      if c == '<' {
        StepsFromGtKeep("&lt;");
      } else {
        ReplaceAllSingle(c, '>', "&gt;");
        if c == '>' {
          StepsFromQuotKeep("&gt;");
        } else {
          ReplaceAllSingle(c, '"', "&quot;");
          if c == '"' {
            ReplaceAllAbsent("&quot;", '\'', "&#39;");
          } else {
            ReplaceAllSingle(c, '\'', "&#39;");
          }
        }
      }
    }
  }

  /** Because `&` is replaced first, the chain escapes every input character exactly
      once: an entity produced by a later step is never escaped again. */
  lemma {:induction false} EscapeHtmlIsSinglePass(s: string)
    ensures EscapeHtml(s) == EscapeEach(s)
  {
    if s != [] {
      assert s == [s[0]] + s[1..];
      EscapeHtmlConcat([s[0]], s[1..]);
      EscapeHtmlChar(s[0]);
      EscapeHtmlIsSinglePass(s[1..]);
    }
  }

  /** The escaped text holds no raw `<`, `>`, `"` or `'`. */
  lemma EscapeHtmlIsSafe(s: string)
    ensures '<' !in EscapeHtml(s) && '>' !in EscapeHtml(s)
    ensures '"' !in EscapeHtml(s) && '\'' !in EscapeHtml(s)
  {
    var amp := ReplaceAll(s, '&', "&amp;");
    var lt := ReplaceAll(amp, '<', "&lt;");
    var gt := ReplaceAll(lt, '>', "&gt;");
    var quot := ReplaceAll(gt, '"', "&quot;");
    ReplaceAllKeepsAbsent(lt, '>', "&gt;", '<');
    ReplaceAllKeepsAbsent(gt, '"', "&quot;", '<');
    ReplaceAllKeepsAbsent(quot, '\'', "&#39;", '<');
    ReplaceAllKeepsAbsent(gt, '"', "&quot;", '>');
    ReplaceAllKeepsAbsent(quot, '\'', "&#39;", '>');
    ReplaceAllKeepsAbsent(quot, '\'', "&#39;", '"');
    var out := ReplaceAll(quot, '\'', "&#39;");
    assert EscapeHtml(s) == out;
  }

  /** Escaping never shortens the text. */
  lemma EscapeHtmlLength(s: string)
    ensures |EscapeHtml(s)| >= |s|
  {
    var amp := ReplaceAll(s, '&', "&amp;");
    var lt := ReplaceAll(amp, '<', "&lt;");
    var gt := ReplaceAll(lt, '>', "&gt;");
    var quot := ReplaceAll(gt, '"', "&quot;");
    var out := ReplaceAll(quot, '\'', "&#39;");
    assert EscapeHtml(s) == out;
    assert |out| >= |quot| >= |gt| >= |lt| >= |amp| >= |s|;
  }

  /** Text with none of the five special characters passes through unchanged. */
  lemma EscapeHtmlPlainText(s: string)
    requires '&' !in s && '<' !in s && '>' !in s && '"' !in s && '\'' !in s
    ensures EscapeHtml(s) == s
  {
    ReplaceAllAbsent(s, '&', "&amp;");
    ReplaceAllAbsent(s, '<', "&lt;");
    ReplaceAllAbsent(s, '>', "&gt;");
    ReplaceAllAbsent(s, '"', "&quot;");
    ReplaceAllAbsent(s, '\'', "&#39;");
  }

  /** `<` becomes `&lt;`, not `&amp;lt;`. */
  lemma EscapeHtmlLessThan()
    ensures EscapeHtml("<") == "&lt;"
  {
    EscapeHtmlChar('<');
  }

  /** Decoding of the five entities (not in the source): the inverse of
      `EscapeEach`, which shows that escaping loses nothing. */
  function Unescape(t: string): string
    decreases |t|
  {
    if t == [] then []
    else if |t| >= 5 && t[..5] == "&amp;" then "&" + Unescape(t[5..])
    else if |t| >= 4 && t[..4] == "&lt;" then "<" + Unescape(t[4..])
    else if |t| >= 4 && t[..4] == "&gt;" then ">" + Unescape(t[4..])
    else if |t| >= 6 && t[..6] == "&quot;" then "\"" + Unescape(t[6..])
    else if |t| >= 5 && t[..5] == "&#39;" then "'" + Unescape(t[5..])
    else [t[0]] + Unescape(t[1..])
  }

  lemma UnescapeStep(c: char, u: string)
    ensures Unescape(EscapeChar(c) + u) == [c] + Unescape(u)
  {
    var t := EscapeChar(c) + u;
    var e := EscapeChar(c);
    assert t[..|e|] == e;
    assert t[|e|..] == u;
    if c != '&' {
      assert t[0] == c || t[1] != 'a';
    }
    if c == '"' || c == '\'' || c == '<' || c == '>' {
      assert t[1] != 'a';
    }
  }

  /** Escaping can be undone: no two inputs escape to the same text. */
  lemma {:induction false} EscapeHtmlRoundTrip(s: string)
    ensures Unescape(EscapeHtml(s)) == s
  {
    EscapeHtmlIsSinglePass(s);
    EscapeEachRoundTrip(s);
  }

  lemma {:induction false} EscapeEachRoundTrip(s: string)
    ensures Unescape(EscapeEach(s)) == s
  {
    if s != [] {
      UnescapeStep(s[0], EscapeEach(s[1..]));
      EscapeEachRoundTrip(s[1..]);
    }
  }

  // ---------------------------------------------------------------------------
  // The POST decision
  // ---------------------------------------------------------------------------

  /** The four fields read from the JSON body; a field is `None` when absent. */
  datatype ContactBody = ContactBody(
    name: Option<string>,
    subject: Option<string>,
    email: Option<string>,
    message: Option<string>)

  /** The request as the handler sees it: a body that did not parse (`req.json()`
      threw, with the given message), or a parsed body, possibly `null`. */
  datatype Request = Malformed(message: string) | Parsed(body: Option<ContactBody>)

  /** The environment variables the handler reads. */
  datatype Env = Env(
    emailUser: Option<string>,
    emailPass: Option<string>,
    contactReceiver: Option<string>)

  /** A JSON error reply, or going ahead to send mail to `receiver` as `user`. */
  datatype Outcome =
    | Reply(status: int, error: string)
    | Send(receiver: string, user: string, pass: string)

  /** `!name || !subject || !email || !message` is false. */
  predicate AllFields(b: ContactBody) {
    Truthy(b.name) && Truthy(b.subject) && Truthy(b.email) && Truthy(b.message)
  }

  /** The body after `body || {}`. */
  function BodyOrEmpty(b: Option<ContactBody>): ContactBody {
    b.GetOr(ContactBody(None, None, None, None))
  }

  /** What the handler does up to the point where it builds the mail transport. */
  function Decide(req: Request, env: Env): (r: Outcome)
    ensures r.Send? <==>
      req.Parsed? && AllFields(BodyOrEmpty(req.body)) && Truthy(env.emailUser) && Truthy(env.emailPass)
    ensures req.Parsed? && !AllFields(BodyOrEmpty(req.body)) ==> r == Reply(400, "Missing fields")
    ensures req.Parsed? && AllFields(BodyOrEmpty(req.body)) && !(Truthy(env.emailUser) && Truthy(env.emailPass))
      ==> r == Reply(500, "Email not configured")
    ensures r.Send? ==> r.user == env.emailUser.value && r.pass == env.emailPass.value
    ensures r.Send? ==> r.receiver == if Truthy(env.contactReceiver) then env.contactReceiver.value else r.user
    ensures req.Malformed? ==> r == Reply(500, if req.message != "" then req.message else "Failed")
  {
    match req
    case Malformed(msg) =>
      Reply(500, if msg != "" then msg else "Failed")
    case Parsed(raw) =>
      var body := BodyOrEmpty(raw);
      if !Truthy(body.name) || !Truthy(body.subject) || !Truthy(body.email) || !Truthy(body.message) then
        Reply(400, "Missing fields")
      else
        var user, pass := env.emailUser, env.emailPass;
        var receiver := if Truthy(env.contactReceiver) then env.contactReceiver else user;
        if !Truthy(user) || !Truthy(pass) then
          Reply(500, "Email not configured")
        else
          Send(receiver.value, user.value, pass.value)
  }

  /** The field check comes first: with a field missing the reply is 400 whatever
      the configuration. */
  lemma MissingFieldsBeforeCredentials(b: ContactBody, env1: Env, env2: Env)
    requires !AllFields(b)
    ensures Decide(Parsed(Some(b)), env1) == Decide(Parsed(Some(b)), env2) == Reply(400, "Missing fields")
  {
  }
}
