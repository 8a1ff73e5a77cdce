/** The camel-cased state keys under which payload fields are exposed:
    item key `customTweet` and payload key `sentiment` give the state key
    `customTweetSentiment`. */
module Naming {

  predicate IsLowerAscii(c: char)
  {
    'a' <= c <= 'z'
  }

  /** `toUpperCase` of one character, restricted to ASCII letters. */
  function UpperAscii(c: char): char
  {
    if IsLowerAscii(c) then (c as int - 32) as char else c
  }

  /** `p.charAt(0).toUpperCase() + p.slice(1)`; the empty string stays empty. */
  function Capitalise(p: string): string
  {
    if |p| == 0 then p else [UpperAscii(p[0])] + p[1..]
  }

  /** The state key of payload field `p` of the item `docKey`. */
  function CamelKey(docKey: string, p: string): string
  {
    docKey + Capitalise(p)
  }

  /** The state key of a payload field starts with the item key, is exactly
      as much longer as the payload key, and equals the item key itself only
      for the empty payload key. */
  lemma CamelKeyShape(docKey: string, p: string)
    ensures |CamelKey(docKey, p)| == |docKey| + |p|
    ensures CamelKey(docKey, p)[..|docKey|] == docKey
    ensures CamelKey(docKey, p) == docKey <==> p == ""
  {
    assert CamelKey(docKey, p)[..|docKey|] == docKey;
  }

  /** Two payload keys that differ only in the case of an ASCII first
      letter. */
  predicate CaseVariants(p: string, q: string)
  {
    |p| == |q| > 0 && p[1..] == q[1..]
    && ((IsLowerAscii(p[0]) && q[0] == UpperAscii(p[0]))
        || (IsLowerAscii(q[0]) && p[0] == UpperAscii(q[0])))
  }

  /** The item key prefix cancels: two state keys of one item agree exactly
      when the capitalised payload keys do. */
  lemma CamelKeyCancel(docKey: string, p: string, q: string)
    ensures CamelKey(docKey, p) == CamelKey(docKey, q) <==> Capitalise(p) == Capitalise(q)
  {
    if CamelKey(docKey, p) == CamelKey(docKey, q) {
      assert Capitalise(p) == CamelKey(docKey, p)[|docKey|..];
      assert Capitalise(q) == CamelKey(docKey, q)[|docKey|..];
    }
  }

  /** Capitalising two different keys gives the same string only for case
      variants. */
  lemma CapitaliseCollision(p: string, q: string)
    requires p != q && Capitalise(p) == Capitalise(q)
    ensures CaseVariants(p, q)
  {
    assert |p| > 0 && |q| > 0;
    assert Capitalise(p)[0] == UpperAscii(p[0]);
    assert Capitalise(q)[0] == UpperAscii(q[0]);
    assert p[1..] == Capitalise(p)[1..] == Capitalise(q)[1..] == q[1..];
    assert p[0] != q[0] by {
      assert p == [p[0]] + p[1..];
      assert q == [q[0]] + q[1..];
    }
  }

  /** Case variants capitalise to the same string. */
  lemma CaseVariantsCapitalise(p: string, q: string)
    requires CaseVariants(p, q)
    ensures Capitalise(p) == Capitalise(q)
  {
    assert Capitalise(p) == [UpperAscii(p[0])] + p[1..];
    assert Capitalise(q) == [UpperAscii(q[0])] + q[1..];
  }

  /** Two different payload keys of one item share a state key exactly when
      they are non-empty, agree after the first character, and their first
      characters are the lower- and upper-case forms of one ASCII letter. */
  lemma {:induction false} CamelKeyCollision(docKey: string, p: string, q: string)
    ensures CamelKey(docKey, p) == CamelKey(docKey, q) <==> p == q || CaseVariants(p, q)
  {
    CamelKeyCancel(docKey, p, q);
    if p != q {
      if Capitalise(p) == Capitalise(q) {
        CapitaliseCollision(p, q);
      }
      if CaseVariants(p, q) {
        CaseVariantsCapitalise(p, q);
      }
    }
  }
}
