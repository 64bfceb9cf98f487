/** SQL's LIKE: `%` stands for any text, `_` for any one character, `\` takes the next character literally. */
module Like {
  /** A pattern that ends in the escape character is an error in SQL; here it matches nothing. */
  predicate Matches(text: string, pattern: string)
    decreases |text| + |pattern|
  {
    if pattern == "" then text == ""
    else if pattern[0] == '%' then Matches(text, pattern[1..]) || (text != "" && Matches(text[1..], pattern))
    else if pattern[0] == '\\' then
      |pattern| > 1 && text != "" && text[0] == pattern[1] && Matches(text[1..], pattern[2..])
    else text != "" && (pattern[0] == '_' || text[0] == pattern[0]) && Matches(text[1..], pattern[1..])
  }

  predicate Plain(pattern: string) {
    forall k :: 0 <= k < |pattern| ==> pattern[k] != '%' && pattern[k] != '\\'
  }

  /** text begins like pattern, with `_` in the pattern agreeing with anything. */
  predicate BeginsLike(text: string, pattern: string) {
    |text| >= |pattern| && forall k :: 0 <= k < |pattern| ==> pattern[k] == '_' || text[k] == pattern[k]
  }

  lemma {:induction false} AnyMatches(text: string)
    ensures Matches(text, "%")
  {
    if text == "" {
      assert "%"[1..] == "";
    } else {
      AnyMatches(text[1..]);
    }
  }

  /** What `prefix%` means when the prefix holds no `%` and no escape. */
  lemma {:induction false} PrefixMatches(text: string, prefix: string)
    requires Plain(prefix)
    ensures Matches(text, prefix + "%") <==> BeginsLike(text, prefix)
  {
    if prefix == "" {
      assert prefix + "%" == "%";
      AnyMatches(text);
    } else {
      assert (prefix + "%")[1..] == prefix[1..] + "%" && (prefix + "%")[0] == prefix[0];
      if text != "" {
        PrefixMatches(text[1..], prefix[1..]);
        if BeginsLike(text[1..], prefix[1..]) && (prefix[0] == '_' || text[0] == prefix[0]) {
          forall k | 0 <= k < |prefix| ensures prefix[k] == '_' || text[k] == prefix[k] {
            if k > 0 { assert prefix[1..][k - 1] == '_' || text[1..][k - 1] == prefix[1..][k - 1]; }
          }
        }
      }
    }
  }
}
