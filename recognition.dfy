/** Turning the chat model's reply into a translation result: cutting the JSON text
    out of the reply, parsing it, rejecting a result without both texts and
    defaulting a missing word list; the browser's friendly error messages; and the
    status-code ladder of the serverless `translate` handler. The browser and the
    handler share the extraction, validation and normalisation defined here. */
module Recognition {
  import opened Wrappers
  import opened Seqs
  import opened Text
  import opened Model

  // ===========================================================================
  // Cutting the JSON text out of the reply
  // ===========================================================================

  /** The opening fence of `/```json\n?([\s\S]*?)\n?```/`. */
  const JsonFence: string := "```json"

  /** The first index at or after `from` where `pat` occurs, or -1. */
  function FirstOccurrence(s: string, pat: string, from: nat): (r: int)
    ensures r == -1 || (from <= r && OccursAt(s, pat, r))
    ensures r == -1 ==> forall i: nat :: from <= i ==> !OccursAt(s, pat, i)
    ensures r >= 0 ==> forall i: nat :: from <= i < r ==> !OccursAt(s, pat, i)
    decreases |s| - from
  {
    if from + |pat| > |s| then -1
    else if OccursAt(s, pat, from) then from
    else FirstOccurrence(s, pat, from + 1)
  }

  lemma FirstOccurrenceAt(s: string, pat: string, from: nat, k: nat)
    requires from <= k && OccursAt(s, pat, k)
    requires forall i: nat :: from <= i < k ==> !OccursAt(s, pat, i)
    ensures FirstOccurrence(s, pat, from) == k
  {
  }

  /** The tail `\n?```` of the pattern matches at `e`: the optional newline is
      tried first, then the bare fence. */
  predicate ClosesAt(s: string, e: nat)
  {
    OccursAt(s, "\n```", e) || OccursAt(s, "```", e)
  }

  /** The first index at or after `from` where the closing tail matches, or -1. */
  function FirstClose(s: string, from: nat): (r: int)
    ensures r == -1 || (from <= r && ClosesAt(s, r))
    ensures r == -1 ==> forall e: nat :: from <= e ==> !ClosesAt(s, e)
    ensures r >= 0 ==> forall e: nat :: from <= e < r ==> !ClosesAt(s, e)
    decreases |s| - from
  {
    if from + 3 > |s| then -1
    else if ClosesAt(s, from) then from
    else FirstClose(s, from + 1)
  }

  lemma FirstCloseAt(s: string, from: nat, k: nat)
    requires from <= k && ClosesAt(s, k)
    requires forall e: nat :: from <= e < k ==> !ClosesAt(s, e)
    ensures FirstClose(s, from) == k
  {
  }

  /** Where the fenced match lies: the opening fence, and the captured group `lo..hi`. */
  datatype Fence = Fence(open: nat, lo: nat, hi: nat)

  /** The match of `/```json\n?([\s\S]*?)\n?```/`. Its leftmost start is the first
      opening fence; the group starts after the fence and one newline, if there is
      one; the lazy group ends at the first place where the closing tail matches.
      When no closing tail follows the first opening fence, none follows a later
      one either, so there is no match at all. */
  function FenceBounds(s: string): (r: Option<Fence>)
    ensures r.Some? ==>
      var f := r.value;
      && OccursAt(s, JsonFence, f.open)
      && (forall p: nat :: p < f.open ==> !OccursAt(s, JsonFence, p))
      && f.lo == (if f.open + 7 < |s| && s[f.open + 7] == '\n' then f.open + 8 else f.open + 7)
      && f.lo <= f.hi <= |s| && ClosesAt(s, f.hi)
      && (forall e: nat :: f.lo <= e < f.hi ==> !ClosesAt(s, e))
    ensures r.None? ==>
      forall p: nat, e: nat :: OccursAt(s, JsonFence, p) && p + 7 <= e ==> !ClosesAt(s, e)
  {
    var open := FirstOccurrence(s, JsonFence, 0);
    if open < 0 then None
    else
      var j := open + 7;
      var lo := if j < |s| && s[j] == '\n' then j + 1 else j;
      var hi := FirstClose(s, lo);
      if hi < 0 then
        NoCloseAfterFence(s, open);
        None
      else Some(Fence(open, lo, hi))
  }

  /** When no closing tail follows the group's start after the first opening
      fence, none follows any opening fence. */
  lemma NoCloseAfterFence(s: string, open: nat)
    requires OccursAt(s, JsonFence, open) && forall p: nat :: p < open ==> !OccursAt(s, JsonFence, p)
    requires FirstClose(s, if open + 7 < |s| && s[open + 7] == '\n' then open + 8 else open + 7) == -1
    ensures forall p: nat, e: nat :: OccursAt(s, JsonFence, p) && p + 7 <= e ==> !ClosesAt(s, e)
  {
    CloseAtNewline(s, open + 7);
  }

  /** The closing tail cannot start at a newline without also starting just after
      it: the newline is then the tail's optional one. */
  lemma CloseAtNewline(s: string, j: nat)
    ensures j < |s| && s[j] == '\n' && ClosesAt(s, j) ==> ClosesAt(s, j + 1)
  {
    if j < |s| && s[j] == '\n' && ClosesAt(s, j) {
      OccursAtChar(s, "```", j, 0);
      assert s[j + 1..j + 4] == s[j..j + 4][1..];
    }
  }

  /** The last index of `c` in `s`, or -1. */
  function LastIndexOf(s: string, c: char): (r: int)
    ensures -1 <= r < |s|
    ensures r >= 0 ==> s[r] == c && forall i :: r < i < |s| ==> s[i] != c
    ensures r == -1 ==> forall i :: 0 <= i < |s| ==> s[i] != c
  {
    if s == [] then -1
    else if s[|s| - 1] == c then |s| - 1
    else LastIndexOf(s[..|s| - 1], c)
  }

  /** The match of `/\{[\s\S]*\}/` as `lo..hi`: from the first `{` to the last `}`
      after it. */
  datatype Span = Span(lo: nat, hi: nat)

  function BraceBounds(s: string): (r: Option<Span>)
    ensures r.Some? ==>
      && r.value.lo < r.value.hi <= |s| && s[r.value.lo] == '{' && s[r.value.hi - 1] == '}'
      && (forall i :: 0 <= i < r.value.lo ==> s[i] != '{')
      && (forall i :: r.value.hi <= i < |s| ==> s[i] != '}')
    ensures r.None? <==> forall i, k :: 0 <= i < k < |s| && s[i] == '{' ==> s[k] != '}'
  {
    var lo := FindIndex(s, (c: char) => c == '{');
    var last := LastIndexOf(s, '}');
    if lo >= 0 && last > lo then Some(Span(lo, last + 1)) else None
  }

  /** `jsonStr`: the fenced group if the fence pattern matches, otherwise the brace
      span if that pattern matches, otherwise the whole reply. */
  function ExtractJson(content: string): string
  {
    match FenceBounds(content)
    case Some(f) => content[f.lo..f.hi]
    case None =>
      match BraceBounds(content)
      case Some(b) => content[b.lo..b.hi]
      case None => content
  }

  /** The text handed to `JSON.parse`. */
  function JsonText(content: string): string
  {
    Trim(ExtractJson(content))
  }

  /** Each character of an occurrence is the pattern's character. */
  lemma OccursAtChar(s: string, pat: string, p: nat, k: nat)
    requires k < |pat|
    ensures OccursAt(s, pat, p) ==> s[p + k] == pat[k]
  {
    if OccursAt(s, pat, p) {
      assert s[p..p + |pat|][k] == s[p + k];
    }
  }

  /** An occurrence inside a slice is an occurrence in the whole string. */
  lemma OccursInSlice(s: string, lo: nat, hi: nat, pat: string, i: nat)
    requires lo <= hi <= |s|
    ensures OccursAt(s[lo..hi], pat, i) ==> OccursAt(s, pat, lo + i)
  {
    if OccursAt(s[lo..hi], pat, i) {
      var t := s[lo..hi];
      var x, y := t[i..i + |pat|], s[lo + i..lo + i + |pat|];
      assert forall k :: 0 <= k < |pat| ==> x[k] == y[k];
      assert x == y;
    }
  }

  /** No fence of either kind starts at a character that is not a backquote. */
  lemma NoFenceAt(s: string, p: nat)
    requires p < |s| && s[p] != '`'
    ensures !OccursAt(s, JsonFence, p) && !OccursAt(s, "```", p)
  {
    OccursAtChar(s, JsonFence, p, 0);
    OccursAtChar(s, "```", p, 0);
  }

  /** A string without backquotes holds no opening fence, so the fence pattern
      does not match it. */
  lemma NoBackquoteNoFence(s: string)
    requires forall i :: 0 <= i < |s| ==> s[i] != '`'
    ensures FenceBounds(s).None?
  {
    forall p: nat ensures !OccursAt(s, JsonFence, p) {
      if p < |s| {
        NoFenceAt(s, p);
      }
    }
    NoOccurrence(s, JsonFence, 0);
  }

  lemma {:induction false} NoOccurrence(s: string, pat: string, from: nat)
    requires forall i: nat :: from <= i ==> !OccursAt(s, pat, i)
    ensures FirstOccurrence(s, pat, from) == -1
    decreases |s| - from
  {
    if from + |pat| <= |s| {
      NoOccurrence(s, pat, from + 1);
    }
  }

  /** The fenced group is the text between the opening fence (and its newline) and
      the first closing fence after it: it holds no fence itself. */
  lemma FenceGroupHoldsNoFence(content: string)
    requires FenceBounds(content).Some?
    ensures forall i: nat :: !OccursAt(ExtractJson(content), "```", i)
  {
    var f := FenceBounds(content).value;
    forall i: nat ensures !OccursAt(content[f.lo..f.hi], "```", i) {
      OccursInSlice(content, f.lo, f.hi, "```", i);
      if i < f.hi - f.lo {
        assert !ClosesAt(content, f.lo + i);
      }
    }
  }

  /** A reply whose JSON sits in a ```` ```json ```` block, with no backquote before
      the block or inside it, gives exactly the block's contents. */
  lemma FencedReply(pre: string, body: string, post: string)
    requires forall i :: 0 <= i < |pre| ==> pre[i] != '`'
    requires forall i :: 0 <= i < |body| ==> body[i] != '`'
    ensures ExtractJson(pre + JsonFence + "\n" + body + "\n```" + post) == body
  {
    var s := pre + JsonFence + "\n" + body + "\n```" + post;
    var open, lo := |pre|, |pre| + 8;
    var hi := lo + |body|;
    assert forall i :: 0 <= i < |pre| ==> s[i] == pre[i];
    assert s[open..open + 7] == JsonFence;
    assert s[open + 7] == '\n';
    OpeningIsFirst(s, open);
    assert forall i :: 0 <= i < |body| ==> s[lo + i] == body[i];
    assert s[hi..hi + 4] == "\n```";
    ClosingIsFirst(s, lo, hi);
    assert s[lo..hi] == body;
  }

  /** An opening fence with no backquote before it is the first one. */
  lemma OpeningIsFirst(s: string, open: nat)
    requires open + 7 <= |s| && s[open..open + 7] == JsonFence
    requires forall i :: 0 <= i < open ==> s[i] != '`'
    ensures FirstOccurrence(s, JsonFence, 0) == open
  {
    forall p: nat | p < open ensures !OccursAt(s, JsonFence, p) {
      NoFenceAt(s, p);
    }
    FirstOccurrenceAt(s, JsonFence, 0, open);
  }

  /** A closing fence after a stretch without backquotes is the first place the
      closing tail matches. */
  lemma ClosingIsFirst(s: string, lo: nat, hi: nat)
    requires lo <= hi && hi + 4 <= |s| && s[hi..hi + 4] == "\n```"
    requires forall i :: lo <= i < hi ==> s[i] != '`'
    ensures FirstClose(s, lo) == hi
  {
    forall e: nat | lo <= e < hi ensures !ClosesAt(s, e) {
      NoFenceAt(s, e);
      OccursAtChar(s, "\n```", e, 0);
      OccursAtChar(s, "\n```", e, 1);
    }
    assert ClosesAt(s, hi);
    FirstCloseAt(s, lo, hi);
  }

  /** A reply without any backquote whose JSON object is the only text between its
      first `{` and its last `}` gives exactly that object. */
  lemma BracedReply(pre: string, mid: string, post: string)
    requires forall i :: 0 <= i < |pre| ==> pre[i] != '{' && pre[i] != '`'
    requires forall i :: 0 <= i < |mid| ==> mid[i] != '`'
    requires forall i :: 0 <= i < |post| ==> post[i] != '}' && post[i] != '`'
    ensures ExtractJson(pre + "{" + mid + "}" + post) == "{" + mid + "}"
  {
    BracedChars(pre, mid, post);
    BracedLayout(pre + "{" + mid + "}" + post, |pre|, |pre| + 1 + |mid|);
  }

  /** Where the braces and the backquotes of such a reply lie. */
  lemma BracedChars(pre: string, mid: string, post: string)
    requires forall i :: 0 <= i < |pre| ==> pre[i] != '{' && pre[i] != '`'
    requires forall i :: 0 <= i < |mid| ==> mid[i] != '`'
    requires forall i :: 0 <= i < |post| ==> post[i] != '}' && post[i] != '`'
    ensures var s, lo, last := pre + "{" + mid + "}" + post, |pre|, |pre| + 1 + |mid|;
      && last < |s| && s[lo] == '{' && s[last] == '}' && s[lo..last + 1] == "{" + mid + "}"
      && (forall i :: 0 <= i < |s| ==> s[i] != '`')
      && (forall i :: 0 <= i < lo ==> s[i] != '{')
      && (forall i :: last < i < |s| ==> s[i] != '}')
  {
    var s := pre + "{" + mid + "}" + post;
    var lo, last := |pre|, |pre| + 1 + |mid|;
    forall i | 0 <= i < |s| ensures s[i] != '`' {
      if i < lo { assert s[i] == pre[i]; }
      else if i == lo { }
      else if i < last { assert s[i] == mid[i - lo - 1]; }
      else if i == last { }
      else { assert s[i] == post[i - last - 1]; }
    }
    forall i | 0 <= i < lo ensures s[i] != '{' {
      assert s[i] == pre[i];
    }
    forall i | last < i < |s| ensures s[i] != '}' {
      assert s[i] == post[i - last - 1];
    }
    assert s[lo..last + 1] == "{" + mid + "}";
  }

  /** A reply without backquotes whose first `{` comes before its last `}` gives
      the span between them. */
  lemma BracedLayout(s: string, lo: nat, last: nat)
    requires lo < last < |s| && s[lo] == '{' && s[last] == '}'
    requires forall i :: 0 <= i < |s| ==> s[i] != '`'
    requires forall i :: 0 <= i < lo ==> s[i] != '{'
    requires forall i :: last < i < |s| ==> s[i] != '}'
    ensures ExtractJson(s) == s[lo..last + 1]
  {
    NoBackquoteNoFence(s);
    BraceSpanAt(s, lo, last);
  }

  /** The brace span runs from the first `{` to the last `}`. */
  lemma BraceSpanAt(s: string, lo: nat, last: nat)
    requires lo < last < |s| && s[lo] == '{' && s[last] == '}'
    requires forall i :: 0 <= i < lo ==> s[i] != '{'
    requires forall i :: last < i < |s| ==> s[i] != '}'
    ensures BraceBounds(s) == Some(Span(lo, last + 1))
  {
    assert FindIndex(s, (c: char) => c == '{') == lo;
    assert LastIndexOf(s, '}') == last;
  }

  /** A reply with neither a fenced block nor a `{ ... }` span is parsed whole. */
  lemma PlainReply(content: string)
    requires forall i :: 0 <= i < |content| ==> content[i] != '`' && content[i] != '{'
    ensures ExtractJson(content) == content
  {
    NoBackquoteNoFence(content);
  }

  // ===========================================================================
  // Parsing, validation and normalisation
  // ===========================================================================

  /** A field of the parsed object as far as the code looks at it: absent, a
      string, or some other JSON value, which is truthy or not. */
  datatype Field = Missing | Text(text: string) | OtherValue(truthy: bool)

  /** JavaScript truthiness of a field. */
  predicate Truthy(f: Field)
  {
    match f
    case Missing => false
    case Text(t) => t != ""
    case OtherValue(b) => b
  }

  /** The `wordParses` field: an array, or anything else (absent included). */
  datatype WordsField = WordList(items: seq<WordParse>) | NotAList

  /** The object `JSON.parse` yields, in the three fields the code reads. */
  datatype Parsed = Parsed(indonesianText: Field, chineseTranslation: Field, wordParses: WordsField)

  /** `JSON.parse`: a value, or a `SyntaxError` with its message. The parser itself is
      a parameter of the model. */
  datatype ParseResult = ParseOk(value: Parsed) | ParseError(message: string)

  /** `!result.indonesianText || !result.chineseTranslation` rejects the result. */
  predicate WellFormed(p: Parsed)
  {
    Truthy(p.indonesianText) && Truthy(p.chineseTranslation)
  }

  /** `if (!Array.isArray(result.wordParses)) result.wordParses = []`. */
  function Normalize(p: Parsed): (r: Parsed)
    ensures r.wordParses.WordList?
    ensures r.indonesianText == p.indonesianText && r.chineseTranslation == p.chineseTranslation
    ensures p.wordParses.WordList? ==> r == p
    ensures !p.wordParses.WordList? ==> r.wordParses == WordList([])
  {
    if p.wordParses.WordList? then p else p.(wordParses := WordList([]))
  }

  /** Normalising twice is normalising once. */
  lemma NormalizeIdempotent(p: Parsed)
    ensures Normalize(Normalize(p)) == Normalize(p)
  {
  }

  // ===========================================================================
  // The browser's direct call
  // ===========================================================================

  const EmptyContentMessage: string := "API 返回内容为空"
  const BadFormatMessage: string := "API 返回格式不正确"
  const KeyMessage: string := "API Key 配置错误，请检查环境变量"
  const QuotaMessage: string := "API 配额已用完，请检查账户余额"
  const NetworkMessage: string := "网络连接失败，请检查网络设置"

  /** What the chat completion call gives: `choices[0]?.message?.content`, or the
      message of the error it threw. */
  datatype ModelReply = Content(content: Option<string>) | CallFailed(message: string)

  /** A successful result, or the message of the `Error` thrown. */
  datatype Outcome = Translated(result: Parsed) | Threw(message: string)

  /** The reply's content is present and not empty. */
  predicate HasContent(content: Option<string>)
  {
    content.Some? && content.value != ""
  }

  /** The `try` block of `translateIndonesianImage` after the call: an empty reply
      throws before anything is parsed, a parse failure throws the parser's
      message, a result without both texts throws the format message, and any
      other result is returned normalised. */
  function Recognize(reply: ModelReply, parse: string -> ParseResult): (r: Outcome)
    ensures reply.Content? && !HasContent(reply.content) ==> r == Threw(EmptyContentMessage)
    ensures r.Translated? <==>
      && reply.Content? && HasContent(reply.content)
      && parse(JsonText(reply.content.value)).ParseOk?
      && WellFormed(parse(JsonText(reply.content.value)).value)
    ensures r.Translated? ==> WellFormed(r.result) && r.result.wordParses.WordList?
    ensures r.Translated? ==>
      && reply.Content? && HasContent(reply.content) && parse(JsonText(reply.content.value)).ParseOk?
      && r.result == Normalize(parse(JsonText(reply.content.value)).value)
    ensures reply.CallFailed? ==> r == Threw(reply.message)
    ensures reply.Content? && HasContent(reply.content) && parse(JsonText(reply.content.value)).ParseError?
        ==> r == Threw(parse(JsonText(reply.content.value)).message)
    ensures reply.Content? && HasContent(reply.content) && parse(JsonText(reply.content.value)).ParseOk?
        && !WellFormed(parse(JsonText(reply.content.value)).value)
        ==> r == Threw(BadFormatMessage)
  {
    match reply
    case CallFailed(m) => Threw(m)
    case Content(content) =>
      if !HasContent(content) then Threw(EmptyContentMessage)
      else
        match parse(JsonText(content.value))
        case ParseError(m) => Threw(m)
        case ParseOk(result) =>
          if !WellFormed(result) then Threw(BadFormatMessage)
          else Translated(Normalize(result))
  }

  /** The `catch` block's message mapping: `'API key'` is checked before `'quota'`,
      which is checked before `'network'`; any other message is rethrown as it is. */
  function FriendlyMessage(message: string): (r: string)
    ensures Contains(message, "API key") ==> r == KeyMessage
    ensures !Contains(message, "API key") && Contains(message, "quota") ==> r == QuotaMessage
    ensures !Contains(message, "API key") && !Contains(message, "quota") && Contains(message, "network")
        ==> r == NetworkMessage
    ensures !Contains(message, "API key") && !Contains(message, "quota") && !Contains(message, "network")
        ==> r == message
    ensures r == message || r in {KeyMessage, QuotaMessage, NetworkMessage}
  {
    if Contains(message, "API key") then KeyMessage
    else if Contains(message, "quota") then QuotaMessage
    else if Contains(message, "network") then NetworkMessage
    else message
  }

  /** `translateIndonesianImage` in development mode, after the chat completion call:
      a result is returned as `Recognize` gives it, a failed call's message goes
      through the mapping, and the two messages the function throws itself come out
      unchanged. */
  function TranslateImage(reply: ModelReply, parse: string -> ParseResult): (r: Outcome)
    ensures r.Translated? <==> Recognize(reply, parse).Translated?
    ensures r.Translated? ==> r == Recognize(reply, parse)
    ensures reply.CallFailed? ==> r == Threw(FriendlyMessage(reply.message))
    ensures reply.Content? && !HasContent(reply.content) ==> r == Threw(EmptyContentMessage)
    ensures reply.Content? && HasContent(reply.content) && parse(JsonText(reply.content.value)).ParseError?
        ==> r == Threw(FriendlyMessage(parse(JsonText(reply.content.value)).message))
    ensures reply.Content? && HasContent(reply.content) && parse(JsonText(reply.content.value)).ParseOk?
        && !WellFormed(parse(JsonText(reply.content.value)).value)
        ==> r == Threw(BadFormatMessage)
    ensures r.Threw? ==> FriendlyMessage(r.message) == r.message
  {
    FriendlyMessageStable(EmptyContentMessage);
    match Recognize(reply, parse)
    case Translated(result) => Translated(result)
    case Threw(m) =>
      FriendlyMessageStable(m);
      Threw(FriendlyMessage(m))
  }

  /** A string without the character `c` contains no string that has it. */
  lemma {:induction false} MissingCharNotContained(s: string, sub: string, c: char)
    requires c in sub && c !in s
    ensures !Contains(s, sub)
    decreases |s|
  {
    if s != [] {
      assert s == [s[0]] + s[1..];
      MissingCharNotContained(s[1..], sub, c);
    }
  }

  /** A text without the letters `k`, `q` and `w` holds none of the keywords. */
  lemma NoKeywordWithoutLetters(m: string)
    requires 'k' !in m && 'q' !in m && 'w' !in m
    ensures !Contains(m, "API key") && !Contains(m, "quota") && !Contains(m, "network")
  {
    assert "API key"[4] == 'k' && "quota"[0] == 'q' && "network"[3] == 'w';
    MissingCharNotContained(m, "API key", 'k');
    MissingCharNotContained(m, "quota", 'q');
    MissingCharNotContained(m, "network", 'w');
  }

  // Each message is written without the letters `k`, `q` and `w`.

  lemma KeyMessageLetters()
    ensures 'k' !in KeyMessage && 'q' !in KeyMessage && 'w' !in KeyMessage
  {
  }

  lemma QuotaMessageLetters()
    ensures 'k' !in QuotaMessage && 'q' !in QuotaMessage && 'w' !in QuotaMessage
  {
  }

  lemma NetworkMessageLetters()
    ensures 'k' !in NetworkMessage && 'q' !in NetworkMessage && 'w' !in NetworkMessage
  {
  }

  lemma EmptyContentMessageLetters()
    ensures 'k' !in EmptyContentMessage && 'q' !in EmptyContentMessage && 'w' !in EmptyContentMessage
  {
  }

  lemma BadFormatMessageLetters()
    ensures 'k' !in BadFormatMessage && 'q' !in BadFormatMessage && 'w' !in BadFormatMessage
  {
  }

  /** None of the friendly messages, nor the function's own two messages, holds a
      keyword of the mapping (`'API Key'` differs from `'API key'` in case). */
  lemma OwnMessagesHoldNoKeyword(m: string)
    requires m in {KeyMessage, QuotaMessage, NetworkMessage, EmptyContentMessage, BadFormatMessage}
    ensures !Contains(m, "API key") && !Contains(m, "quota") && !Contains(m, "network")
  {
    KeyMessageLetters();
    QuotaMessageLetters();
    NetworkMessageLetters();
    EmptyContentMessageLetters();
    BadFormatMessageLetters();
    NoKeywordWithoutLetters(m);
  }

  /** The mapping is idempotent, and the function's own messages pass through it
      unchanged. */
  lemma FriendlyMessageStable(m: string)
    ensures FriendlyMessage(FriendlyMessage(m)) == FriendlyMessage(m)
    ensures FriendlyMessage(EmptyContentMessage) == EmptyContentMessage
    ensures FriendlyMessage(BadFormatMessage) == BadFormatMessage
  {
    var r := FriendlyMessage(m);
    if r != m {
      OwnMessagesHoldNoKeyword(r);
    } else {
      assert FriendlyMessage(r) == r;
    }
    OwnMessagesHoldNoKeyword(EmptyContentMessage);
    OwnMessagesHoldNoKeyword(BadFormatMessage);
  }

  // ===========================================================================
  // The serverless translate handler
  // ===========================================================================

  /** The request body: `null`, which `const { imageBase64 } = req.body` cannot
      destructure, or an object whose `imageBase64` field may be missing. */
  datatype RequestBody = NullBody | JsonBody(imageBase64: Option<string>)

  /** The HTTP method and the body. */
  datatype TranslateRequest = TranslateRequest(httpMethod: string, body: RequestBody)

  /** The body carries a non-empty `imageBase64`. */
  predicate HasImage(req: TranslateRequest)
  {
    req.body.JsonBody? && HasContent(req.body.imageBase64)
  }

  /** The upstream chat completion response: its status, and the reply content
      when the status is OK; or the error `fetch` threw. */
  datatype Upstream = UpstreamResponse(status: int, content: Option<string>) | FetchFailed(message: string)

  /** `response.ok`. */
  predicate IsOk(status: int)
  {
    200 <= status <= 299
  }

  /** The JSON the handler sends: an error message, the message of the `TypeError`
      a `null` body raises (its text is not modelled), or the result. */
  datatype TranslateBody = ErrorBody(error: string) | TypeErrorBody | ResultBody(result: Parsed)

  datatype TranslateResponse = TranslateResponse(status: int, body: TranslateBody)

  /** The handler's early-return ladder: method, then, inside the `try`, body,
      image, key, upstream status, empty content, parse, format; every exception
      ends in a 500 with its message. */
  function ServeTranslate(req: TranslateRequest, apiKey: Option<string>, upstream: Upstream,
                          parse: string -> ParseResult): (r: TranslateResponse)
    ensures req.httpMethod != "POST" ==> r == TranslateResponse(405, ErrorBody("Method not allowed"))
    ensures req.httpMethod == "POST" && req.body.NullBody? ==> r == TranslateResponse(500, TypeErrorBody)
    ensures req.httpMethod == "POST" && req.body.JsonBody? && !HasContent(req.body.imageBase64)
        ==> r == TranslateResponse(400, ErrorBody("Missing image data"))
    ensures req.httpMethod == "POST" && HasImage(req) && !HasContent(apiKey)
        ==> r == TranslateResponse(500, ErrorBody("API key not configured"))
    ensures req.httpMethod == "POST" && HasImage(req) && HasContent(apiKey)
        && upstream.UpstreamResponse? && !IsOk(upstream.status)
        ==> r == TranslateResponse(upstream.status, ErrorBody("OpenAI API request failed"))
    ensures req.httpMethod == "POST" && HasImage(req) && HasContent(apiKey)
        && upstream.FetchFailed?
        ==> r == TranslateResponse(500, ErrorBody(upstream.message))
    ensures req.httpMethod == "POST" && HasImage(req) && HasContent(apiKey)
        && upstream.UpstreamResponse? && IsOk(upstream.status) && !HasContent(upstream.content)
        ==> r == TranslateResponse(500, ErrorBody("Empty response from OpenAI"))
    ensures r.status == 200 <==> r.body.ResultBody?
    ensures r.body.ResultBody? ==>
      && req.httpMethod == "POST" && HasImage(req) && HasContent(apiKey)
      && upstream.UpstreamResponse? && IsOk(upstream.status) && HasContent(upstream.content)
      && parse(JsonText(upstream.content.value)).ParseOk?
      && r.body.result == Normalize(parse(JsonText(upstream.content.value)).value)
    ensures r.body.ResultBody? ==> WellFormed(r.body.result) && r.body.result.wordParses.WordList?
  {
    if req.httpMethod != "POST" then TranslateResponse(405, ErrorBody("Method not allowed"))
    else if req.body.NullBody? then TranslateResponse(500, TypeErrorBody)
    else if !HasContent(req.body.imageBase64) then TranslateResponse(400, ErrorBody("Missing image data"))
    else if !HasContent(apiKey) then TranslateResponse(500, ErrorBody("API key not configured"))
    else
      match upstream
      case FetchFailed(m) => TranslateResponse(500, ErrorBody(m))
      case UpstreamResponse(status, content) =>
        if !IsOk(status) then TranslateResponse(status, ErrorBody("OpenAI API request failed"))
        else if !HasContent(content) then TranslateResponse(500, ErrorBody("Empty response from OpenAI"))
        else
          match parse(JsonText(content.value))
          case ParseError(m) => TranslateResponse(500, ErrorBody(m))
          case ParseOk(result) =>
            if !WellFormed(result) then TranslateResponse(500, ErrorBody("Invalid response format"))
            else TranslateResponse(200, ResultBody(Normalize(result)))
  }

  /** For the same reply content and parser, the handler answers 200 with exactly
      the result the browser's direct call returns, and fails exactly where that
      call throws: on an empty reply, on a parse error (with the parser's message)
      and on a result without both texts. */
  lemma HandlerAgreesWithClient(image: string, apiKey: string, status: int, content: Option<string>,
                                parse: string -> ParseResult)
    requires image != "" && apiKey != "" && IsOk(status)
    ensures var r := ServeTranslate(TranslateRequest("POST", JsonBody(Some(image))), Some(apiKey),
                                    UpstreamResponse(status, content), parse);
      var c := Recognize(Content(content), parse);
      && (r.status == 200 <==> c.Translated?)
      && (c.Translated? ==> r.body == ResultBody(c.result))
      && (!HasContent(content) ==>
            c == Threw(EmptyContentMessage) && r == TranslateResponse(500, ErrorBody("Empty response from OpenAI")))
      && (HasContent(content) && parse(JsonText(content.value)).ParseError? ==>
            var m := parse(JsonText(content.value)).message;
            c == Threw(m) && r == TranslateResponse(500, ErrorBody(m)))
      && (HasContent(content) && parse(JsonText(content.value)).ParseOk?
          && !WellFormed(parse(JsonText(content.value)).value) ==>
            c == Threw(BadFormatMessage) && r == TranslateResponse(500, ErrorBody("Invalid response format")))
  {
  }
}
