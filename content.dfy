/**
 * Chat content validation (`Messaging.checkContent`): the falsy check, the
 * JavaScript `trim`, the `filter:messaging.checkContent` hook, the emptiness
 * re-check and the length bound.
 */
module Content {
  import opened Results
  import Decimal

  /** The errors the pipeline throws; `ErrorText` gives their message strings. */
  datatype ChatError = InvalidChatMessage | ChatMessageTooLong(limit: int) | NotAllowed

  function ErrorText(e: ChatError): (t: string)
    ensures |t| > 10 && t[..8] == "[[error:" && t[|t| - 2..] == "]]"
    ensures e.ChatMessageTooLong? <==> |t| >= |TooLongPrefix| && t[..|TooLongPrefix|] == TooLongPrefix
  {
    match e
    case InvalidChatMessage => "[[error:invalid-chat-message]]"
    case ChatMessageTooLong(limit) => TooLongPrefix + Decimal.IntToDecimal(limit) + "]]"
    case NotAllowed => "[[error:not-allowed]]"
  }

  const TooLongPrefix := "[[error:chat-message-too-long, "

  /** The limit used when `maximumChatMessageLength` is unset or 0. */
  const DefaultMaxLength := 1000

  /**
   * `meta.config?.maximumChatMessageLength || 1000`: the configured value,
   * where `None` stands for a missing config object or setting.
   */
  function MaxLength(setting: Option<int>): (n: int)
    ensures setting == None || setting == Some(0) ==> n == DefaultMaxLength
    ensures setting.Some? && setting.value != 0 ==> n == setting.value
  {
    match setting
    case Some(v) => if v != 0 then v else DefaultMaxLength
    case None => DefaultMaxLength
  }

  /** The characters JavaScript's `String.prototype.trim` removes. */
  predicate IsJsWhitespace(c: char)
  {
    || c == '\t' || c == '\n' || c == '\U{000B}' || c == '\U{000C}' || c == '\r'
    || c == ' ' || c == '\U{00A0}' || c == '\U{1680}' || '\U{2000}' <= c <= '\U{200A}'
    || c == '\U{2028}' || c == '\U{2029}' || c == '\U{202F}' || c == '\U{205F}'
    || c == '\U{3000}' || c == '\U{FEFF}'
  }

  predicate AllWhitespace(s: string)
  {
    forall i :: 0 <= i < |s| ==> IsJsWhitespace(s[i])
  }

  /** `s` without its leading whitespace: a suffix of `s`. */
  function TrimStart(s: string): (r: string)
    ensures |r| <= |s| && r == s[|s| - |r|..]
    ensures AllWhitespace(s[..|s| - |r|])
    ensures r != [] ==> !IsJsWhitespace(r[0])
    decreases |s|
  {
    if |s| > 0 && IsJsWhitespace(s[0]) then
      var r := TrimStart(s[1..]);
      assert s[..|s| - |r|] == [s[0]] + s[1..][..|s| - 1 - |r|];
      r
    else s
  }

  /** `s` without its trailing whitespace: a prefix of `s`. */
  function TrimEnd(s: string): (r: string)
    ensures |r| <= |s| && r == s[..|r|]
    ensures AllWhitespace(s[|r|..])
    ensures r != [] ==> !IsJsWhitespace(r[|r| - 1])
    decreases |s|
  {
    if |s| > 0 && IsJsWhitespace(s[|s| - 1]) then
      var t := s[..|s| - 1];
      var r := TrimEnd(t);
      assert r == s[..|r|];
      assert forall i :: |r| <= i < |s| - 1 ==> s[i] == t[|r|..][i - |r|];
      r
    else s
  }

  /**
   * `String(s).trim()`: a prefix of `TrimStart(s)` with only whitespace cut
   * off after it, neither starting nor ending with whitespace.
   */
  function Trim(s: string): (r: string)
    ensures |r| <= |TrimStart(s)| && r == TrimStart(s)[..|r|] && AllWhitespace(TrimStart(s)[|r|..])
    ensures r != [] ==> !IsJsWhitespace(r[0]) && !IsJsWhitespace(r[|r| - 1])
  {
    TrimEnd(TrimStart(s))
  }

  /** The `{ content, length }` object the content filter hook receives and returns. */
  datatype Filtered = Filtered(content: string, length: int)

  /** A filter hook with no plugin registered: the object passes through. */
  function IdentityFilter(f: Filtered): Filtered
  {
    f
  }

  /** The UTF-16 code units of `c`: two for a character outside the Basic Multilingual Plane. */
  function CodeUnits(c: char): (n: nat)
    ensures n == 1 || n == 2
  {
    if c >= '\U{10000}' then 2 else 1
  }

  /** `s.length` in JavaScript, which counts UTF-16 code units rather than characters. */
  function JsLength(s: string): (n: nat)
    ensures |s| <= n <= 2 * |s|
    ensures (forall i :: 0 <= i < |s| ==> s[i] < '\U{10000}') ==> n == |s|
    ensures (forall i :: 0 <= i < |s| ==> s[i] >= '\U{10000}') ==> n == 2 * |s|
  {
    if s == [] then 0 else CodeUnits(s[0]) + JsLength(s[1..])
  }

  /** The JavaScript length of a concatenation is the sum of the lengths: it counts every character on its own. */
  lemma {:induction false} JsLengthAppend(a: string, b: string)
    ensures JsLength(a + b) == JsLength(a) + JsLength(b)
    decreases |a|
  {
    if a != [] {
      assert (a + b)[1..] == a[1..] + b;
      JsLengthAppend(a[1..], b);
    } else {
      assert a + b == b;
    }
  }

  /** A string mixing both kinds of character: `"a\u{1F600}".length` is 3. */
  lemma MixedLength()
    ensures JsLength("a\U{1F600}") == 3
  {
    JsLengthAppend("a", "\U{1F600}");
  }

  /**
   * What the `filter:messaging.checkContent` hook chain returns when it is
   * given the trimmed content and its length; a hook that passes its input
   * through returns exactly those, empty for all-whitespace content.
   */
  function HookOutput(content: string, filter: Filtered -> Filtered): (r: Filtered)
    ensures (forall f :: filter(f) == f) ==>
              && r.content == Trim(content) && r.length == JsLength(Trim(content))
              && (r.content == [] <==> AllWhitespace(content))
  {
    var trimmed := Trim(content);
    TrimEmptyIffAllWhitespace(content);
    filter(Filtered(trimmed, JsLength(trimmed)))
  }

  /**
   * `Messaging.checkContent(content)`: `Pass` when the content may be sent,
   * otherwise the error it throws. `filter` stands for the
   * `filter:messaging.checkContent` hook chain.
   */
  function CheckContent(content: string, setting: Option<int>, filter: Filtered -> Filtered): (r: Outcome<ChatError>)
    ensures content == [] ==> r == Fail(InvalidChatMessage)
    ensures r.Pass? <==>
              content != [] && HookOutput(content, filter).content != [] &&
              HookOutput(content, filter).length <= MaxLength(setting)
    ensures r == Fail(InvalidChatMessage) <==> content == [] || HookOutput(content, filter).content == []
    ensures r == Fail(ChatMessageTooLong(MaxLength(setting))) <==>
              content != [] && HookOutput(content, filter).content != [] &&
              HookOutput(content, filter).length > MaxLength(setting)
    ensures r.Fail? ==> r.error == InvalidChatMessage || r.error == ChatMessageTooLong(MaxLength(setting))
  {
    if content == [] then Fail(InvalidChatMessage)
    else
      var maximum := MaxLength(setting);
      var filtered := HookOutput(content, filter);
      if filtered.content == [] then Fail(InvalidChatMessage)
      else if filtered.length > maximum then Fail(ChatMessageTooLong(maximum))
      else Pass
  }

  /** Trimming leaves nothing exactly when the string is all whitespace. */
  lemma TrimEmptyIffAllWhitespace(s: string)
    ensures Trim(s) == [] <==> AllWhitespace(s)
  {
  }

  /** Trimming leaves a string without surrounding whitespace unchanged. */
  lemma TrimUnchanged(s: string)
    requires s != [] ==> !IsJsWhitespace(s[0]) && !IsJsWhitespace(s[|s| - 1])
    ensures Trim(s) == s
  {
  }

  /** Trimming twice is trimming once. */
  lemma TrimIdempotent(s: string)
    ensures Trim(Trim(s)) == Trim(s)
  {
  }

  /** Content that is only whitespace is refused when no plugin rewrites it. */
  lemma WhitespaceOnlyRejected(content: string, setting: Option<int>)
    requires content != [] && AllWhitespace(content)
    ensures CheckContent(content, setting, IdentityFilter) == Fail(InvalidChatMessage)
  {
  }

  /**
   * Without a plugin, content is refused as empty exactly when it trims to
   * nothing, and otherwise as too long exactly when its trimmed JavaScript
   * length exceeds the limit: a length equal to the limit passes.
   */
  lemma LengthBoundIsStrict(content: string, setting: Option<int>)
    ensures CheckContent(content, setting, IdentityFilter)
            == if Trim(content) == [] then Fail(InvalidChatMessage)
               else if JsLength(Trim(content)) > MaxLength(setting) then Fail(ChatMessageTooLong(MaxLength(setting)))
               else Pass
  {
  }

  /**
   * The bound counts UTF-16 code units: 501 characters outside the Basic
   * Multilingual Plane have length 1002 and exceed the default limit.
   */
  lemma AstralContentCountsTwice()
    ensures CheckContent(seq(501, _ => '\U{1F600}'), None, IdentityFilter) == Fail(ChatMessageTooLong(1000))
  {
    var content := seq(501, _ => '\U{1F600}');
    assert !IsJsWhitespace(content[0]) && !IsJsWhitespace(content[500]);
    TrimUnchanged(content);
    assert JsLength(content) == 1002;
    LengthBoundIsStrict(content, None);
  }

  /** Distinct errors have distinct texts: the message names the error and its limit. */
  lemma ErrorTextInjective(a: ChatError, b: ChatError)
    ensures ErrorText(a) == ErrorText(b) ==> a == b
  {
    var ta, tb := ErrorText(a), ErrorText(b);
    if ta == tb && a.ChatMessageTooLong? && b.ChatMessageTooLong? {
      assert Decimal.IntToDecimal(a.limit) == ta[|TooLongPrefix|..|ta| - 2];
      assert Decimal.IntToDecimal(b.limit) == tb[|TooLongPrefix|..|tb| - 2];
      Decimal.IntToDecimalInjective(a.limit, b.limit);
    }
  }

  /** The too-long error text carries the limit, and it can be read back from it. */
  lemma TooLongTextCarriesLimit(limit: nat)
    ensures var text := ErrorText(ChatMessageTooLong(limit));
            && text[..|TooLongPrefix|] == TooLongPrefix
            && text[|TooLongPrefix|..|text| - 2] == Decimal.NatToDecimal(limit)
            && Decimal.AllDigits(text[|TooLongPrefix|..|text| - 2])
            && Decimal.DecimalValue(text[|TooLongPrefix|..|text| - 2]) == limit
  {
    var text := ErrorText(ChatMessageTooLong(limit));
    var digits := Decimal.NatToDecimal(limit);
    assert text == TooLongPrefix + digits + "]]";
    assert text[|TooLongPrefix|..|text| - 2] == digits;
    Decimal.DecimalRoundTrip(limit);
  }

  /** With the default limit the error reads `[[error:chat-message-too-long, 1000]]`. */
  lemma DefaultTooLongText()
    ensures ErrorText(ChatMessageTooLong(MaxLength(None))) == "[[error:chat-message-too-long, 1000]]"
  {
    assert Decimal.NatToDecimal(10) == "10";
    assert Decimal.NatToDecimal(100) == "100";
    assert Decimal.IntToDecimal(1000) == "1000";
  }
}
