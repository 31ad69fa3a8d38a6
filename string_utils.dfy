/**
 * The PHP worker's `StringUtils::injectRequestedAt`: splice a `"requestedAt":"…",`
 * member right after the opening brace of a JSON object text, using an anchored
 * `preg_replace` that replaces at most one match.
 */
module StringUtils {

  /** The member text spliced in after the brace; `requestedAt` is copied verbatim, unescaped. */
  function Insert(requestedAt: string): string
  {
    MemberHead + requestedAt + "\","
  }

  /** The text before the value: the member name and the opening quote of the value. */
  const MemberHead := "\"requestedAt\":\""

  /** No `$` and no `\`: the replacement string of `preg_replace` is then taken literally. */
  predicate LiteralReplacement(s: string)
  {
    forall i :: 0 <= i < |s| ==> s[i] != '$' && s[i] != '\\'
  }

  /** The pattern `/^{/`: a brace at the very start of the subject. */
  predicate StartsWithBrace(json: string)
  {
    |json| > 0 && json[0] == '{'
  }

  function InjectRequestedAt(json: string, requestedAt: string): (r: string)
    requires LiteralReplacement(requestedAt)
    // the anchored pattern matches: the brace becomes brace + member, the rest is untouched
    ensures StartsWithBrace(json) ==>
      && |r| == |json| + |Insert(requestedAt)|
      && r[..1 + |Insert(requestedAt)|] == "{" + Insert(requestedAt)
      && r[1 + |Insert(requestedAt)|..] == json[1..]
    // no match (the empty string included): the subject comes back unchanged
    ensures !StartsWithBrace(json) ==> r == json
    // only the leading brace is replaced: the subject minus its first character is a suffix
    ensures StartsWithBrace(json) ==> r[|r| - (|json| - 1)..] == json[1..]
  {
    if StartsWithBrace(json) then "{" + Insert(requestedAt) + json[1..] else json
  }

  /** The inverse splice: remove the member again if it sits right after the brace. */
  function StripRequestedAt(r: string, requestedAt: string): (json: string)
    ensures |json| <= |r|
  {
    var head := "{" + Insert(requestedAt);
    if |head| <= |r| && r[..|head|] == head then "{" + r[|head|..] else r
  }

  /** Stripping what was injected gives back the original text, whatever it was. */
  lemma InjectRoundTrip(json: string, requestedAt: string)
    requires LiteralReplacement(requestedAt)
    ensures StripRequestedAt(InjectRequestedAt(json, requestedAt), requestedAt) == json
  {
    var head := "{" + Insert(requestedAt);
    var r := InjectRequestedAt(json, requestedAt);
    if StartsWithBrace(json) {
      assert r[..|head|] == head;
      assert json == "{" + json[1..];
    } else {
      assert r == json;
      assert |head| <= |r| ==> r[..|head|][0] != head[0];
    }
  }

  /** The value is inserted verbatim, with no JSON escaping, right after the brace and the member head. */
  lemma RequestedAtVerbatim(json: string, requestedAt: string)
    requires LiteralReplacement(requestedAt) && StartsWithBrace(json)
    ensures var r, at := InjectRequestedAt(json, requestedAt), 1 + |MemberHead|;
      r[..at] == "{" + MemberHead && r[at..at + |requestedAt|] == requestedAt
  {
    var head := "{" + MemberHead;
    var tail := "\"," + json[1..];
    assert InjectRequestedAt(json, requestedAt) == head + requestedAt + tail;
    assert |head| == 1 + |MemberHead|;
  }

  /** An empty object gets a trailing comma: the output is not valid JSON. */
  lemma EmptyObjectTrailingComma(requestedAt: string)
    requires LiteralReplacement(requestedAt)
    ensures InjectRequestedAt("{}", requestedAt) == "{\"requestedAt\":\"" + requestedAt + "\",}"
  {
  }
}
