/** Query strings of the CI controller (components/ci-controller/src/lib.rs,
    parse_query): `a=b&c=d`, without percent-decoding. */
module QueryStrings {

  /** The position of the first `c`, or the length. */
  function IndexOf(s: string, c: char): (k: nat)
    ensures k <= |s| && (k < |s| ==> s[k] == c)
    ensures forall i :: 0 <= i < k ==> s[i] != c
  {
    if s == [] || s[0] == c then 0 else 1 + IndexOf(s[1..], c)
  }

  /** Rust's `split`: one more piece than separators, pieces may be empty. */
  function Split(s: string, c: char): (parts: seq<string>)
    ensures parts != []
  {
    if s == [] then [""]
    else
      var rest := Split(s[1..], c);
      if s[0] == c then [""] + rest else [[s[0]] + rest[0]] + rest[1..]
  }

  type Query = map<string, string>

  function KeyOf(pair: string): string {
    pair[..IndexOf(pair, '=')]
  }

  function ValueOf(pair: string): string {
    var k := IndexOf(pair, '=');
    if k < |pair| then pair[k + 1..] else ""
  }

  function Insert(m: Query, pair: string): Query {
    if KeyOf(pair) == "" then m else m[KeyOf(pair) := ValueOf(pair)]
  }

  function InsertAll(m: Query, pairs: seq<string>): Query {
    if pairs == [] then m else Insert(InsertAll(m, pairs[..|pairs| - 1]), pairs[|pairs| - 1])
  }

  function Parse(q: string): Query {
    InsertAll(map[], Split(q, '&'))
  }

  method ParseQuery(q: string) returns (out: Query)
    ensures out == Parse(q)
  {
    out := map[];
    var pairs := Split(q, '&');
    for i := 0 to |pairs|
      invariant out == InsertAll(map[], pairs[..i])
    {
      assert pairs[..i + 1][..i] == pairs[..i];
      var pair := pairs[i];
      if pair != "" {
        var eq := IndexOf(pair, '=');
        var k := pair[..eq];
        var v := if eq < |pair| then pair[eq + 1..] else "";
        if k != "" {
          out := out[k := v];
        }
      }
    }
    assert pairs[..|pairs|] == pairs;
  }

  // ---------- homomorphism ----------

  lemma FirstSeparator(s: string, k: nat, c: char)
    requires k <= |s| && (k < |s| ==> s[k] == c) && forall i :: 0 <= i < k ==> s[i] != c
    ensures IndexOf(s, c) == k
  {
  }

  lemma PrependFirst(x: char, c: char, p: seq<string>, r: seq<string>)
    requires p != []
    ensures [""] + (p + r) == ([""] + p) + r
    ensures [[x] + (p + r)[0]] + (p + r)[1..] == ([[x] + p[0]] + p[1..]) + r
  {
    assert (p + r)[1..] == p[1..] + r;
  }

  lemma {:induction false} SplitJoined(a: string, b: string, c: char)
    ensures Split(a + [c] + b, c) == Split(a, c) + Split(b, c)
  {
    var s := a + [c] + b;
    if a == [] {
      assert s[1..] == b;
    } else {
      SplitJoined(a[1..], b, c);
      assert s[1..] == a[1..] + [c] + b && s[0] == a[0];
      PrependFirst(a[0], c, Split(a[1..], c), Split(b, c));
    }
  }

  predicate Free(s: string, c: char) {
    forall i :: 0 <= i < |s| ==> s[i] != c
  }

  lemma {:induction false} SplitWhole(s: string, c: char)
    requires Free(s, c)
    ensures Split(s, c) == [s]
  {
    if s != [] {
      SplitWhole(s[1..], c);
      assert s == [s[0]] + s[1..];
    }
  }

  lemma {:induction false} InsertAllOverrides(m: Query, pairs: seq<string>)
    ensures InsertAll(m, pairs) == m + InsertAll(map[], pairs)
  {
    if pairs != [] {
      InsertAllOverrides(m, pairs[..|pairs| - 1]);
    }
  }

  lemma {:induction false} InsertAllConcat(m: Query, p: seq<string>, r: seq<string>)
    ensures InsertAll(m, p + r) == InsertAll(InsertAll(m, p), r)
  {
    if r == [] {
      assert p + r == p;
    } else {
      assert (p + r)[..|p + r| - 1] == p + r[..|r| - 1];
      InsertAllConcat(m, p, r[..|r| - 1]);
    }
  }

  /** Parsing two queries joined by `&` is parsing each, the second overriding. */
  lemma ParseHomomorphism(a: string, b: string)
    ensures Parse(a + "&" + b) == Parse(a) + Parse(b)
  {
    SplitJoined(a, b, '&');
    InsertAllConcat(map[], Split(a, '&'), Split(b, '&'));
    InsertAllOverrides(Parse(a), Split(b, '&'));
  }

  // ---------- round trip ----------

  ghost predicate Renderable(m: Query) {
    forall k :: k in m ==> k != "" && Free(k, '&') && Free(k, '=') && Free(m[k], '&')
  }

  function Render(m: Query, keys: seq<string>): string
    requires forall k :: k in keys ==> k in m
  {
    if keys == [] then ""
    else
      var last := keys[|keys| - 1];
      var pair := last + "=" + m[last];
      if |keys| == 1 then pair else Render(m, keys[..|keys| - 1]) + "&" + pair
  }

  lemma ParsePair(k: string, v: string)
    requires k != "" && Free(k, '&') && Free(k, '=') && Free(v, '&')
    ensures Parse(k + "=" + v) == map[k := v]
  {
    var pair := k + "=" + v;
    SplitWhole(pair, '&');
    FirstSeparator(pair, |k|, '=');
    assert pair[..|k|] == k && pair[|k| + 1..] == v;
    assert InsertAll(map[], [pair]) == Insert(map[], pair);
  }

  /** A pair without `=` is a key with an empty value; without a key it is nothing,
      and so is an empty pair. A value may contain `=`. */
  lemma OddPairs(k: string, v: string)
    requires Free(k, '&') && Free(v, '&')
    ensures k != "" && Free(k, '=') ==> Parse(k) == map[k := ""]
    ensures Parse("=" + v) == map[]
    ensures Parse("") == map[]
  {
    SplitWhole("", '&');
    SplitWhole(k, '&');
    SplitWhole("=" + v, '&');
    assert InsertAll(map[], [""]) == Insert(map[], "");
    assert InsertAll(map[], [k]) == Insert(map[], k);
    assert InsertAll(map[], ["=" + v]) == Insert(map[], "=" + v);
    FirstSeparator("=" + v, 0, '=');
    if Free(k, '=') {
      FirstSeparator(k, |k|, '=');
      assert k[..|k|] == k;
    }
  }

  lemma {:induction false} ParseRendered(m: Query, keys: seq<string>)
    requires Renderable(m) && forall k :: k in keys ==> k in m
    ensures Parse(Render(m, keys)) == map k | k in keys :: m[k]
  {
    if keys == [] {
      assert Split("", '&') == [""];
    } else {
      var front, last := keys[..|keys| - 1], keys[|keys| - 1];
      var pair := last + "=" + m[last];
      ParsePair(last, m[last]);
      assert keys == front + [last];
      if front != [] {
        ParseRendered(m, front);
        ParseHomomorphism(Render(m, front), pair);
      }
    }
  }

  /** Rendering a query in any key order, keys repeated or not, and parsing it
      gives it back. */
  lemma RoundTrip(m: Query, keys: seq<string>)
    requires Renderable(m) && forall k :: k in keys <==> k in m
    ensures Parse(Render(m, keys)) == m
  {
    ParseRendered(m, keys);
  }
}
