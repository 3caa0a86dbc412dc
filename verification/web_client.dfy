/** The browser client's pure decisions: HTML escaping of a message, the
    newline-to-`<br>` step of a chat bubble, the role's class and avatar,
    which text to show for the server's reply, and the submit guard. */
module WebClient {
  import opened Wrappers
  import opened Text
  import Router

  // ---------------------------------------------------------------------
  // `escapeHtml`.

  /** `s.replace(/c/g, rep)`: every occurrence of the character `c`
      replaced by `rep`. */
  function ReplaceAll(s: string, c: char, rep: string): string {
    if s == [] then [] else (if s[0] == c then rep else [s[0]]) + ReplaceAll(s[1..], c, rep)
  }

  /** `escapeHtml`: five replacements in sequence, `&` first. */
  function EscapeHtml(s: string): string {
    ReplaceAll(ReplaceAll(ReplaceAll(ReplaceAll(ReplaceAll(s, '&', "&amp;"), '<', "&lt;"), '>', "&gt;"), '"', "&quot;"), '\'', "&#039;")
  }

  /** The entity for one character, or the character itself. */
  function EscapeChar(c: char): string {
    match c
    case '&' => "&amp;"
    case '<' => "&lt;"
    case '>' => "&gt;"
    case '"' => "&quot;"
    case '\'' => "&#039;"
    case _ => [c]
  }

  /** Escaping character by character. */
  function EscapeEach(s: string): string {
    if s == [] then [] else EscapeChar(s[0]) + EscapeEach(s[1..])
  }

  /** The characters that have meaning in HTML markup or attributes. */
  predicate IsMarkup(c: char) {
    c == '<' || c == '>' || c == '"' || c == '\''
  }

  predicate IsSpecial(c: char) {
    c == '&' || IsMarkup(c)
  }

  lemma {:induction false} ReplaceAllAppend(a: string, b: string, c: char, rep: string)
    ensures ReplaceAll(a + b, c, rep) == ReplaceAll(a, c, rep) + ReplaceAll(b, c, rep)
  {
    if a == [] {
      assert a + b == b;
    } else {
      assert (a + b)[1..] == a[1..] + b;
      ReplaceAllAppend(a[1..], b, c, rep);
    }
  }

  /** Escaping distributes over concatenation. */
  lemma EscapeHtmlAppend(a: string, b: string)
    ensures EscapeHtml(a + b) == EscapeHtml(a) + EscapeHtml(b)
  {
    var a1, b1 := ReplaceAll(a, '&', "&amp;"), ReplaceAll(b, '&', "&amp;");
    var a2, b2 := ReplaceAll(a1, '<', "&lt;"), ReplaceAll(b1, '<', "&lt;");
    var a3, b3 := ReplaceAll(a2, '>', "&gt;"), ReplaceAll(b2, '>', "&gt;");
    var a4, b4 := ReplaceAll(a3, '"', "&quot;"), ReplaceAll(b3, '"', "&quot;");
    ReplaceAllAppend(a, b, '&', "&amp;");
    ReplaceAllAppend(a1, b1, '<', "&lt;");
    ReplaceAllAppend(a2, b2, '>', "&gt;");
    ReplaceAllAppend(a3, b3, '"', "&quot;");
    ReplaceAllAppend(a4, b4, '\'', "&#039;");
  }

  /** On one character the five replacements give that character's
      entity: no entity is escaped again by a later step. */
  lemma EscapeHtmlOfChar(c: char)
    ensures EscapeHtml([c]) == EscapeChar(c)
  {
    if c == '&' {
      EscapeAmpersand();
    } else if c == '<' {
      EscapeLess();
    } else if c == '>' {
      EscapeGreater();
    } else if c == '"' {
      EscapeQuote();
    } else if c == '\'' {
      EscapeApostrophe();
    } else {
      EscapeOrdinary(c);
    }
  }

  lemma EscapeAmpersand()
    ensures EscapeHtml("&") == "&amp;"
  {
    ReplaceAllOne('&', '&', "&amp;");
    AmpUntouched('<', "&lt;");
    AmpUntouched('>', "&gt;");
    AmpUntouched('"', "&quot;");
    AmpUntouched('\'', "&#039;");
  }

  lemma AmpUntouched(x: char, rep: string)
    requires IsMarkup(x)
    ensures ReplaceAll("&amp;", x, rep) == "&amp;"
  {
    ReplaceAllAbsent("&amp;", x, rep);
  }

  lemma EscapeLess()
    ensures EscapeHtml("<") == "&lt;"
  {
    ReplaceAllOne('<', '&', "&amp;");
    ReplaceAllOne('<', '<', "&lt;");
    ReplaceAllAbsent("&lt;", '>', "&gt;");
    ReplaceAllAbsent("&lt;", '"', "&quot;");
    ReplaceAllAbsent("&lt;", '\'', "&#039;");
  }

  lemma EscapeGreater()
    ensures EscapeHtml(">") == "&gt;"
  {
    ReplaceAllOne('>', '&', "&amp;");
    ReplaceAllOne('>', '<', "&lt;");
    ReplaceAllOne('>', '>', "&gt;");
    ReplaceAllAbsent("&gt;", '"', "&quot;");
    ReplaceAllAbsent("&gt;", '\'', "&#039;");
  }

  lemma EscapeQuote()
    ensures EscapeHtml("\"") == "&quot;"
  {
    ReplaceAllOne('"', '&', "&amp;");
    ReplaceAllOne('"', '<', "&lt;");
    ReplaceAllOne('"', '>', "&gt;");
    ReplaceAllOne('"', '"', "&quot;");
    ReplaceAllAbsent("&quot;", '\'', "&#039;");
  }

  lemma EscapeApostrophe()
    ensures EscapeHtml("'") == "&#039;"
  {
    ReplaceAllOne('\'', '&', "&amp;");
    ReplaceAllOne('\'', '<', "&lt;");
    ReplaceAllOne('\'', '>', "&gt;");
    ReplaceAllOne('\'', '"', "&quot;");
    ReplaceAllOne('\'', '\'', "&#039;");
  }

  lemma EscapeOrdinary(c: char)
    requires !IsSpecial(c)
    ensures EscapeHtml([c]) == [c]
  {
    ReplaceAllOne(c, '&', "&amp;");
    ReplaceAllOne(c, '<', "&lt;");
    ReplaceAllOne(c, '>', "&gt;");
    ReplaceAllOne(c, '"', "&quot;");
    ReplaceAllOne(c, '\'', "&#039;");
  }

  lemma ReplaceAllOne(c: char, x: char, rep: string)
    ensures ReplaceAll([c], x, rep) == if c == x then rep else [c]
  {
    assert [c][1..] == [];
  }

  lemma {:induction false} ReplaceAllAbsent(s: string, x: char, rep: string)
    requires forall i :: 0 <= i < |s| ==> s[i] != x
    ensures ReplaceAll(s, x, rep) == s
  {
    if s != [] {
      assert s[0] != x;
      ReplaceAllAbsent(s[1..], x, rep);
      assert s == [s[0]] + s[1..];
    }
  }

  /** `escapeHtml` acts character by character, with no double escaping. */
  lemma {:induction false} EscapeHtmlIsPerChar(s: string)
    ensures EscapeHtml(s) == EscapeEach(s)
  {
    if s != [] {
      assert s == [s[0]] + s[1..];
      EscapeHtmlAppend([s[0]], s[1..]);
      EscapeHtmlOfChar(s[0]);
      EscapeHtmlIsPerChar(s[1..]);
    }
  }

  lemma {:induction false} EscapeEachFacts(s: string)
    ensures forall i :: 0 <= i < |EscapeEach(s)| ==> !IsMarkup(EscapeEach(s)[i])
    ensures |EscapeEach(s)| >= |s|
    ensures (forall i :: 0 <= i < |s| ==> !IsSpecial(s[i])) ==> EscapeEach(s) == s
  {
    if s != [] {
      EscapeEachFacts(s[1..]);
      var e, r := EscapeChar(s[0]), EscapeEach(s[1..]);
      forall i | 0 <= i < |e + r| ensures !IsMarkup((e + r)[i]) {
        if i >= |e| {
          assert (e + r)[i] == r[i - |e|];
        }
      }
      if forall i :: 0 <= i < |s| ==> !IsSpecial(s[i]) {
        assert !IsSpecial(s[0]);
        assert forall i :: 0 <= i < |s[1..]| ==> !IsSpecial(s[1..][i]) by {
          forall i | 0 <= i < |s[1..]| ensures !IsSpecial(s[1..][i]) {
            assert s[1..][i] == s[i + 1];
          }
        }
        assert s == [s[0]] + s[1..];
      }
    }
  }

  /** Escaped text has none of `<`, `>`, `"`, `'`; it is never shorter than
      the input; and text without special characters is left unchanged. */
  lemma EscapeHtmlFacts(s: string)
    ensures forall i :: 0 <= i < |EscapeHtml(s)| ==> !IsMarkup(EscapeHtml(s)[i])
    ensures |EscapeHtml(s)| >= |s|
    ensures (forall i :: 0 <= i < |s| ==> !IsSpecial(s[i])) ==> EscapeHtml(s) == s
  {
    EscapeHtmlIsPerChar(s);
    EscapeEachFacts(s);
  }

  // ---------------------------------------------------------------------
  // The chat bubble: `escapeHtml(text).replace(/\n/g, '<br>')`.

  function Bubble(text: string): string {
    ReplaceAll(EscapeHtml(text), '\n', "<br>")
  }

  function BubbleChar(c: char): string {
    if c == '\n' then "<br>" else EscapeChar(c)
  }

  function BubbleEach(s: string): string {
    if s == [] then [] else BubbleChar(s[0]) + BubbleEach(s[1..])
  }

  lemma {:induction false} BubbleIsPerChar(s: string)
    ensures Bubble(s) == BubbleEach(s)
  {
    EscapeHtmlIsPerChar(s);
    BubbleEachOfEscaped(s);
  }

  lemma {:induction false} BubbleEachOfEscaped(s: string)
    ensures ReplaceAll(EscapeEach(s), '\n', "<br>") == BubbleEach(s)
  {
    if s != [] {
      ReplaceAllAppend(EscapeChar(s[0]), EscapeEach(s[1..]), '\n', "<br>");
      if s[0] == '\n' {
        ReplaceAllOne(s[0], '\n', "<br>");
      } else {
        ReplaceAllAbsent(EscapeChar(s[0]), '\n', "<br>");
      }
      BubbleEachOfEscaped(s[1..]);
    }
  }

  /** The only markup in a bubble is the line breaks it inserts: every `<`
      begins a `<br>`. */
  lemma {:induction false} BubbleTagsAreBreaks(s: string)
    ensures forall i :: 0 <= i < |BubbleEach(s)| && BubbleEach(s)[i] == '<' ==> OccursAt(BubbleEach(s), "<br>", i)
  {
    if s != [] {
      BubbleTagsAreBreaks(s[1..]);
      var b, r := BubbleChar(s[0]), BubbleEach(s[1..]);
      assert BubbleEach(s) == b + r;
      forall i | 0 <= i < |b + r| && (b + r)[i] == '<' ensures OccursAt(b + r, "<br>", i) {
        if i < |b| {
          BubbleCharTags(s[0], i);
          OccursAtFront(b, r);
        } else {
          assert (b + r)[i] == r[i - |b|];
          OccursAtShift(b, r, "<br>", i - |b|);
        }
      }
    }
  }

  lemma BubbleCharTags(c: char, i: nat)
    requires i < |BubbleChar(c)| && BubbleChar(c)[i] == '<'
    ensures i == 0 && BubbleChar(c) == "<br>"
  {
  }

  lemma OccursAtFront(a: string, b: string)
    ensures OccursAt(a + b, a, 0)
  {
    assert (a + b)[0..|a|] == a;
  }

  lemma OccursAtShift(a: string, b: string, pat: string, j: nat)
    requires OccursAt(b, pat, j)
    ensures OccursAt(a + b, pat, |a| + j)
  {
    assert (a + b)[|a| + j..|a| + j + |pat|] == b[j..j + |pat|];
  }

  /** The text the HTML produced here decodes back to: entities decoded
      and `<br>` read as a line break. How a browser then renders
      carriage returns and runs of whitespace is not modelled. */
  function Decoded(html: string): string
    decreases |html|
  {
    if html == [] then []
    else if StartsWith(html, "<br>") then ['\n'] + Decoded(html[4..])
    else if StartsWith(html, "&amp;") then ['&'] + Decoded(html[5..])
    else if StartsWith(html, "&lt;") then ['<'] + Decoded(html[4..])
    else if StartsWith(html, "&gt;") then ['>'] + Decoded(html[4..])
    else if StartsWith(html, "&quot;") then ['"'] + Decoded(html[6..])
    else if StartsWith(html, "&#039;") then ['\''] + Decoded(html[6..])
    else [html[0]] + Decoded(html[1..])
  }

  lemma DecodedStep(c: char, rest: string)
    ensures Decoded(BubbleChar(c) + rest) == [c] + Decoded(rest)
    ensures c != '\n' ==> Decoded(EscapeChar(c) + rest) == [c] + Decoded(rest)
  {
    if c == '\n' {
      DecodedLiteral("<br>", rest);
    } else if c == '&' {
      DecodedLiteral("&amp;", rest);
      NotPrefixAt("&amp;" + rest, "<br>", 0);
    } else if c == '<' {
      DecodedLiteral("&lt;", rest);
      NotPrefixAt("&lt;" + rest, "<br>", 0);
      NotPrefixAt("&lt;" + rest, "&amp;", 1);
    } else if c == '>' {
      DecodedLiteral("&gt;", rest);
      NotPrefixAt("&gt;" + rest, "<br>", 0);
      NotPrefixAt("&gt;" + rest, "&amp;", 1);
      NotPrefixAt("&gt;" + rest, "&lt;", 1);
    } else if c == '"' {
      DecodedLiteral("&quot;", rest);
      NotPrefixAt("&quot;" + rest, "<br>", 0);
      NotPrefixAt("&quot;" + rest, "&amp;", 1);
      NotPrefixAt("&quot;" + rest, "&lt;", 1);
      NotPrefixAt("&quot;" + rest, "&gt;", 1);
    } else if c == '\'' {
      DecodedLiteral("&#039;", rest);
      NotPrefixAt("&#039;" + rest, "<br>", 0);
      NotPrefixAt("&#039;" + rest, "&amp;", 1);
      NotPrefixAt("&#039;" + rest, "&lt;", 1);
      NotPrefixAt("&#039;" + rest, "&gt;", 1);
      NotPrefixAt("&#039;" + rest, "&quot;", 1);
    } else {
      DecodedPlain(c, rest);
    }
  }

  lemma DecodedLiteral(lit: string, rest: string)
    requires |lit| > 0
    ensures StartsWith(lit + rest, lit) && (lit + rest)[|lit|..] == rest && (lit + rest) != []
  {
    StartsWithPrefix(lit, rest);
    assert (lit + rest)[|lit|..] == rest;
  }

  lemma NotPrefixAt(t: string, lit: string, k: nat)
    requires k < |t| && k < |lit| && t[k] != lit[k]
    ensures !StartsWith(t, lit)
  {
  }

  lemma DecodedPlain(c: char, rest: string)
    requires !IsSpecial(c) && c != '\n'
    ensures Decoded([c] + rest) == [c] + Decoded(rest)
  {
    var t := [c] + rest;
    assert t[0] == c && t[1..] == rest;
    NotPrefixAt(t, "<br>", 0);
    NotPrefixAt(t, "&amp;", 0);
    NotPrefixAt(t, "&lt;", 0);
    NotPrefixAt(t, "&gt;", 0);
    NotPrefixAt(t, "&quot;", 0);
    NotPrefixAt(t, "&#039;", 0);
  }

  lemma {:induction false} DecodedBubbleEach(s: string)
    ensures Decoded(BubbleEach(s)) == s
  {
    if s != [] {
      DecodedStep(s[0], BubbleEach(s[1..]));
      DecodedBubbleEach(s[1..]);
    }
  }

  /** A bubble's HTML decodes back to exactly the message text, line
      breaks included. */
  lemma BubbleDecodesToText(text: string)
    ensures Decoded(Bubble(text)) == text
    ensures forall i :: 0 <= i < |Bubble(text)| && Bubble(text)[i] == '<' ==> OccursAt(Bubble(text), "<br>", i)
  {
    BubbleIsPerChar(text);
    DecodedBubbleEach(text);
    BubbleTagsAreBreaks(text);
  }

  lemma {:induction false} DecodedEscapeEach(s: string)
    requires forall i :: 0 <= i < |s| ==> s[i] != '\n'
    ensures Decoded(EscapeEach(s)) == s
  {
    if s != [] {
      DecodedStep(s[0], EscapeEach(s[1..]));
      assert forall i :: 0 <= i < |s[1..]| ==> s[1..][i] != '\n' by {
        forall i | 0 <= i < |s[1..]| ensures s[1..][i] != '\n' {
          assert s[1..][i] == s[i + 1];
        }
      }
      DecodedEscapeEach(s[1..]);
    }
  }

  /** Escaped single-line text decodes back to itself. */
  lemma EscapeHtmlDecodesToText(s: string)
    requires forall i :: 0 <= i < |s| ==> s[i] != '\n'
    ensures Decoded(EscapeHtml(s)) == s
  {
    EscapeHtmlIsPerChar(s);
    DecodedEscapeEach(s);
  }

  // ---------------------------------------------------------------------
  // Role and display decisions.

  /** The CSS class of the avatar and the bubble. */
  function RoleClass(role: string): string {
    if role == "user" then "user" else "bot"
  }

  function Avatar(role: string): string {
    if role == "user" then "You" else "FB"
  }

  /** The class and the avatar agree: both mark exactly the role "user";
      every other role is shown as the bot. The class alone determines the
      avatar: read as a role, a class keeps its class and its avatar. */
  lemma RoleAndAvatarAgree(role: string)
    ensures RoleClass(role) == "user" <==> role == "user"
    ensures Avatar(role) == "You" <==> RoleClass(role) == "user"
    ensures RoleClass(role) == "bot" <==> Avatar(role) == "FB"
    ensures RoleClass(RoleClass(role)) == RoleClass(role) && Avatar(RoleClass(role)) == Avatar(role)
  {
  }

  /** The JSON fields the client reads; `None` for a missing or null
      field. */
  datatype Fields = Fields(response: Option<string>, error: Option<string>)

  /** One request to the server as the client sees it: the request threw
      (network failure, unparsable body) with a message, or a status and a
      parsed body (`None` for JSON null). */
  datatype Exchange = Threw(reason: string) | Answered(status: nat, data: Option<Fields>)

  predicate IsOkStatus(status: nat) {
    200 <= status <= 299
  }

  predicate Truthy(s: Option<string>) {
    s.Some? && s.value != []
  }

  const NoResponse := "No response from server."

  /** The message of the error thrown for a failed status. */
  const StatusPrefix := "Network or server error: Server error "

  /** The bot message shown for the outcome of a request. */
  function Shown(x: Exchange): string {
    match x
    case Threw(reason) => "Network or server error: " + reason
    case Answered(status, data) =>
      if !IsOkStatus(status) then StatusPrefix + NatToString(status)
      else if data.Some? && Truthy(data.value.response) then data.value.response.value
      else if data.Some? && Truthy(data.value.error) then "Error: " + data.value.error.value
      else NoResponse
  }

  /** On an ok status, a non-empty response is shown as it is and takes
      precedence over an error field; an error is shown, after "Error: ",
      only without a response; a reply with neither shows the fixed
      notice. */
  lemma ShownPrefersResponse(status: nat, data: Option<Fields>)
    requires IsOkStatus(status)
    ensures data.Some? && Truthy(data.value.response) ==> Shown(Answered(status, data)) == data.value.response.value
    ensures data.Some? && !Truthy(data.value.response) && Truthy(data.value.error) ==>
      Shown(Answered(status, data)) == "Error: " + data.value.error.value
    ensures Shown(Answered(status, data)) == NoResponse <==>
      (data.None? || (!Truthy(data.value.response) && !Truthy(data.value.error))) ||
      (data.Some? && Truthy(data.value.response) && data.value.response.value == NoResponse)
  {
    if data.Some? && !Truthy(data.value.response) && Truthy(data.value.error) {
      assert ("Error: " + data.value.error.value)[0] == 'E';
    }
  }

  /** Reads the status number back out of the text shown for a failed
      status. */
  function ReadStatus(text: string): Option<nat> {
    var rest :- Expect(text, StatusPrefix);
    var n :- ReadNumber(rest);
    if n.1 == [] then Some(n.0) else None
  }

  /** A failed status is reported with its number, whatever the body: the
      body is never read, and the number shown is the status. */
  lemma FailedStatusShown(status: nat, data: Option<Fields>, other: Option<Fields>)
    ensures !IsOkStatus(status) ==> Shown(Answered(status, data)) == Shown(Answered(status, other))
    ensures !IsOkStatus(status) ==> ReadStatus(Shown(Answered(status, data))) == Some(status)
  {
    ExpectLiteral(StatusPrefix, NatToString(status));
    ReadNumberRoundTrip(status, []);
    assert NatToString(status) + [] == NatToString(status);
  }

  // ---------------------------------------------------------------------
  // Submitting a message.

  /** The message a submit sends: the input trimmed, or nothing when that
      is empty. */
  function Submit(input: string): Option<string> {
    var t := Trim(input);
    if t == [] then None else Some(t)
  }

  /** Blank input sends nothing; anything else sends a non-empty message
      without surrounding whitespace, which submits unchanged. */
  lemma SubmitGuard(input: string)
    ensures Submit(input).None? <==> forall k :: 0 <= k < |input| ==> IsSpace(input[k])
    ensures Submit(input).Some? ==>
      var m := Submit(input).value;
      m != [] && !IsSpace(m[0]) && !IsSpace(m[|m| - 1]) && Submit(m) == Some(m)
  {
    TrimEmptyIffBlank(input);
    if Submit(input).Some? {
      TrimKeepsTrimmed(Submit(input).value);
    }
  }

  lemma TrimKeepsTrimmed(m: string)
    requires m != [] && !IsSpace(m[0]) && !IsSpace(m[|m| - 1])
    ensures Trim(m) == m
  {
    assert LeadingSpace(m) == 0;
    assert TrailingSpace(m) == 0;
  }

  // ---------------------------------------------------------------------
  // The client against the chat endpoint.

  /** How a reply of the endpoint reaches the client. */
  function Transmit(r: Router.HttpReply): Exchange {
    match r
    case Ok(response) => Answered(200, Some(Fields(Some(response), None)))
    case BadRequest(error) => Answered(400, Some(Fields(None, Some(error))))
  }

  /** A message the client submits is never rejected by the endpoint, and
      the client shows the endpoint's response, or the fixed notice when
      that response is empty (an empty reply of the model). */
  lemma SubmittedMessageIsAnswered(input: string, env: Router.Env)
    requires Submit(input).Some?
    ensures Router.Chat(Submit(input), env).Ok?
    ensures var response := Router.Chat(Submit(input), env).response;
      Shown(Transmit(Router.Chat(Submit(input), env))) == (if response != [] then response else NoResponse)
  {
    SubmitGuard(input);
    Router.ChatAnswersFirstHandler(Submit(input).value, env);
  }

  /** A rejected request is shown by its status, never by its error text:
      the endpoint's 400 is not an ok status. */
  lemma RejectionShowsStatus(error: string)
    ensures Shown(Transmit(Router.BadRequest(error))) == "Network or server error: Server error 400"
  {
    assert NatToString(400) == "400" by {
      assert NatToString(4) == "4";
      assert NatToString(40) == "40";
    }
  }
}
