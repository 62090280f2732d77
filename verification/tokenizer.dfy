/**
  * The tokenizer `parse_string` (src/lib.rs): split the input on whitespace,
  * split each piece on `=`, keep the first two parts as a key and a value,
  * and collect the pairs into a map.
  */
module Tokenizer {
  import opened Wrappers
  import opened Text

  type Settings = map<string, string>

  /** Length of the run of non-whitespace characters that starts `s`. */
  function WordLength(s: string): (n: nat)
    ensures n <= |s|
    ensures forall i :: 0 <= i < n ==> !IsWhitespace(s[i])
    ensures n == |s| || IsWhitespace(s[n])
  {
    if s == [] || IsWhitespace(s[0]) then 0 else 1 + WordLength(s[1..])
  }

  /** Rust's `str::split_whitespace`: the maximal non-empty runs of non-whitespace. */
  function Words(s: string): (ws: seq<string>)
    ensures forall i :: 0 <= i < |ws| ==> ws[i] != [] && !HasWhitespace(ws[i])
    decreases |s|
  {
    if s == [] then []
    else if IsWhitespace(s[0]) then Words(s[1..])
    else
      var n := WordLength(s);
      [s[..n]] + Words(s[n..])
  }

  /** Index of the first `c` in `s`, or `|s|` when there is none. */
  function IndexOf(s: string, c: char): (i: nat)
    ensures i <= |s|
    ensures forall j :: 0 <= j < i ==> s[j] != c
    ensures i < |s| ==> s[i] == c
  {
    if s == [] || s[0] == c then 0 else 1 + IndexOf(s[1..], c)
  }

  /**
    * One token through `pair.split('=')` and two `parts.next()?`: no pair
    * when the token has no `=`; otherwise the key is the text before the
    * first `=` and the value the text after it, up to the second `=` or the end.
    */
  function SplitPair(token: string): Option<(string, string)>
  {
    var i := IndexOf(token, '=');
    if i == |token| then None
    else
      var rest := token[i + 1..];
      Some((token[..i], rest[..IndexOf(rest, '=')]))
  }

  /** The text before the first `c` does not contain `c`. */
  lemma BeforeIndexOf(s: string, c: char)
    ensures c !in s[..IndexOf(s, c)]
    ensures IndexOf(s, c) == |s| <==> c !in s
  {
    var i := IndexOf(s, c);
    assert forall k :: 0 <= k < i ==> s[..i][k] == s[k];
    if i < |s| {
      assert s[i] == c;
    }
  }

  /** Cutting a string around one of its `=` characters. */
  lemma CutAt(t: string, i: nat)
    requires i < |t| && t[i] == '='
    ensures t == t[..i] + "=" + t[i + 1..]
  {
  }

  lemma SplitPairParts(token: string, i: nat, j: nat)
    requires i == IndexOf(token, '=') && i < |token|
    requires j == IndexOf(token[i + 1..], '=')
    ensures SplitPair(token) == Some((token[..i], token[i + 1..][..j]))
    ensures '=' !in token[..i] && '=' !in token[i + 1..][..j]
  {
    BeforeIndexOf(token, '=');
    BeforeIndexOf(token[i + 1..], '=');
  }

  lemma SplitPairRejoin(token: string, i: nat, j: nat)
    requires i < |token| && token[i] == '='
    requires j <= |token| - i - 1 && (j == |token| - i - 1 || token[i + 1 + j] == '=')
    ensures var key, value := token[..i], token[i + 1..][..j];
      token == key + "=" + value || key + "=" + value + "=" <= token
  {
    var key, rest := token[..i], token[i + 1..];
    var value := rest[..j];
    CutAt(token, i);
    if j < |rest| {
      CutAt(rest, j);
      assert token == (key + "=" + value + "=") + rest[j + 1..];
    } else {
      assert rest == value;
    }
  }

  /** What `SplitPair` keeps and drops: no pair without `=`; otherwise a key and a value free of `=`, anything after a second `=` dropped. */
  lemma SplitPairShape(token: string)
    ensures SplitPair(token).None? <==> '=' !in token
    ensures SplitPair(token).Some? ==>
      var (key, value) := SplitPair(token).value;
      && '=' !in key && '=' !in value
      && (token == key + "=" + value || key + "=" + value + "=" <= token)
  {
    BeforeIndexOf(token, '=');
    var i := IndexOf(token, '=');
    if i < |token| {
      var j := IndexOf(token[i + 1..], '=');
      SplitPairParts(token, i, j);
      SplitPairRejoin(token, i, j);
    }
  }

  /** True when `token` yields a pair whose key is `key`. */
  predicate HasKey(token: string, key: string)
  {
    SplitPair(token).Some? && SplitPair(token).value.0 == key
  }

  /** `filter_map(...).collect()` into a HashMap: pairs are inserted in order, so a later key overwrites. */
  function Collect(tokens: seq<string>): Settings
  {
    if tokens == [] then map[]
    else
      var m := Collect(tokens[..|tokens| - 1]);
      match SplitPair(tokens[|tokens| - 1])
      case None => m
      case Some((key, value)) => m[key := value]
  }

  /** `parse_string`. */
  function ParseString(input: string): Settings
  {
    Collect(Words(input))
  }

  // ---------------------------------------------------------------------
  // Properties

  /** `IndexOf` stops right after a prefix free of `c` that is followed by `c` or by the end. */
  lemma IndexOfAfterPrefix(s: string, p: string, c: char)
    requires c !in p && p <= s
    requires |s| == |p| || s[|p|] == c
    ensures IndexOf(s, c) == |p|
  {
    assert forall j :: 0 <= j < |p| ==> s[j] == p[j];
    assert forall j :: 0 <= j < |p| ==> s[j] != c;
  }

  lemma SplitPairAt(t: string, key: string, value: string)
    requires '=' !in key && '=' !in value
    requires |key| < |t| && t[..|key|] == key && t[|key|] == '='
    requires value <= t[|key| + 1..]
    requires |t| == |key| + 1 + |value| || t[|key| + 1 + |value|] == '='
    ensures SplitPair(t) == Some((key, value))
  {
    IndexOfAfterPrefix(t, key, '=');
    var rest := t[|key| + 1..];
    IndexOfAfterPrefix(rest, value, '=');
    assert rest[..|value|] == value;
  }

  /** A token `key=value` (optionally followed by `=` and anything) splits back into `key` and `value`. */
  lemma SplitPairOfJoined(key: string, value: string, tail: string)
    requires '=' !in key && '=' !in value
    ensures SplitPair(key + "=" + value) == Some((key, value))
    ensures SplitPair(key + "=" + value + "=" + tail) == Some((key, value))
  {
    var t := key + "=" + value;
    assert t[..|key|] == key && t[|key|..] == "=" + value;
    SplitPairAt(t, key, value);
    var t' := key + "=" + value + "=" + tail;
    assert t'[..|key|] == key && t'[|key|..] == "=" + value + "=" + tail;
    assert t'[|key| + 1..] == value + "=" + tail;
    SplitPairAt(t', key, value);
  }

  /** A key is in the collected map exactly when some token yields a pair with that key. */
  lemma {:induction false} CollectKeys(tokens: seq<string>, key: string)
    ensures key in Collect(tokens) <==> exists i :: 0 <= i < |tokens| && HasKey(tokens[i], key)
    decreases |tokens|
  {
    if tokens != [] {
      var init := tokens[..|tokens| - 1];
      CollectStep(tokens, key);
      CollectKeys(init, key);
      if exists i :: 0 <= i < |init| && HasKey(init[i], key) {
        var i :| 0 <= i < |init| && HasKey(init[i], key);
        assert HasKey(tokens[i], key);
      }
      if exists i :: 0 <= i < |tokens| && HasKey(tokens[i], key) {
        var i :| 0 <= i < |tokens| && HasKey(tokens[i], key);
        if i < |init| { assert HasKey(init[i], key); }
      }
    }
  }

  lemma CollectStep(tokens: seq<string>, key: string)
    requires tokens != []
    ensures key in Collect(tokens) <==>
      key in Collect(tokens[..|tokens| - 1]) || HasKey(tokens[|tokens| - 1], key)
  {
  }

  /** For a repeated key the last token that carries it decides the value. */
  lemma {:induction false} CollectLastWins(tokens: seq<string>, i: nat, key: string, value: string)
    requires i < |tokens| && SplitPair(tokens[i]) == Some((key, value))
    requires forall j :: i < j < |tokens| ==> !HasKey(tokens[j], key)
    ensures key in Collect(tokens) && Collect(tokens)[key] == value
    decreases |tokens|
  {
    var init := tokens[..|tokens| - 1];
    if i < |init| {
      assert !HasKey(tokens[|tokens| - 1], key);
      CollectLastWins(init, i, key, value);
    }
  }

  /** `parse_string`: which keys appear. */
  lemma ParseStringKeys(input: string, key: string)
    ensures var ws := Words(input);
      key in ParseString(input) <==> exists i :: 0 <= i < |ws| && HasKey(ws[i], key)
  {
    var ws := Words(input);
    CollectKeys(ws, key);
    if key in ParseString(input) {
      assert key in Collect(ws);
      var i :| 0 <= i < |ws| && HasKey(ws[i], key);
      assert HasKey(Words(input)[i], key);
    } else if exists i :: 0 <= i < |ws| && HasKey(ws[i], key) {
      assert key in Collect(ws);
    }
  }

  /** `parse_string`: the value of a key is the one from its last token. */
  lemma ParseStringLastWins(input: string, i: nat, key: string, value: string)
    requires i < |Words(input)| && SplitPair(Words(input)[i]) == Some((key, value))
    requires forall j :: i < j < |Words(input)| ==> !HasKey(Words(input)[j], key)
    ensures key in ParseString(input) && ParseString(input)[key] == value
  {
    CollectLastWins(Words(input), i, key, value);
  }

  /** Words joined by single spaces. */
  function JoinWords(ws: seq<string>): string
  {
    if ws == [] then "" else if |ws| == 1 then ws[0] else ws[0] + " " + JoinWords(ws[1..])
  }

  lemma {:induction false} WordLengthOfPrefix(w: string, tail: string)
    requires !HasWhitespace(w)
    requires tail == [] || IsWhitespace(tail[0])
    ensures WordLength(w + tail) == |w|
    decreases |w|
  {
    if w != [] {
      assert !IsWhitespace(w[0]);
      assert (w + tail)[1..] == w[1..] + tail;
      assert !HasWhitespace(w[1..]) by {
        forall k | 0 <= k < |w[1..]| ensures !IsWhitespace(w[1..][k]) {
          assert w[1..][k] == w[k + 1];
        }
      }
      WordLengthOfPrefix(w[1..], tail);
    }
  }

  /** Splitting words that were joined by spaces gives the words back. */
  lemma {:induction false} WordsOfJoin(ws: seq<string>)
    requires forall i :: 0 <= i < |ws| ==> ws[i] != [] && !HasWhitespace(ws[i])
    ensures Words(JoinWords(ws)) == ws
    decreases |ws|
  {
    if |ws| == 1 {
      WordLengthOfPrefix(ws[0], []);
      assert ws[0] + [] == ws[0];
      assert ws[0][|ws[0]|..] == [];
    } else if |ws| > 1 {
      var w, tail := ws[0], " " + JoinWords(ws[1..]);
      var s := w + tail;
      assert JoinWords(ws) == s;
      WordLengthOfPrefix(w, tail);
      assert !IsWhitespace(s[0]);
      assert s[..|w|] == w;
      assert s[|w|..] == tail;
      assert tail[1..] == JoinWords(ws[1..]);
      WordsOfJoin(ws[1..]);
      assert ws == [w] + ws[1..];
    }
  }

  /** The leading run of `a` is unchanged by what follows `a`, unless the run reaches the end of `a` and continues into it. */
  lemma {:induction false} WordLengthAppend(a: string, t: string)
    requires WordLength(a) < |a| || t == [] || IsWhitespace(t[0])
    ensures WordLength(a + t) == WordLength(a)
    decreases |a|
  {
    if a == [] {
    } else if !IsWhitespace(a[0]) {
      assert (a + t)[1..] == a[1..] + t;
      WordLengthAppend(a[1..], t);
    }
  }

  /** A non-empty run free of whitespace is one word. */
  lemma WordsOfWord(w: string)
    requires w != [] && !HasWhitespace(w)
    ensures Words(w) == [w]
  {
    WordLengthOfPrefix(w, []);
    assert w + [] == w;
    assert w[..|w|] == w && w[|w|..] == [];
  }

  /**
    * A whitespace character separates: the words on either side of it are
    * the words of the whole, in order. With `Words("") == []` and
    * `WordsOfWord` this fixes `Words` on every string.
    */
  lemma {:induction false} WordsSplitAt(a: string, c: char, b: string)
    requires IsWhitespace(c)
    ensures Words(a + [c] + b) == Words(a) + Words(b)
    decreases |a|
  {
    var s := a + [c] + b;
    if a == [] {
      assert s == [c] + b;
      assert s[1..] == b;
    } else if IsWhitespace(a[0]) {
      assert s[1..] == a[1..] + [c] + b;
      WordsSplitAt(a[1..], c, b);
    } else {
      var n := WordLength(a);
      WordLengthAppend(a, [c] + b);
      assert s == a + ([c] + b);
      assert WordLength(s) == n;
      assert s[..n] == a[..n];
      assert s[n..] == a[n..] + [c] + b;
      WordsSplitAt(a[n..], c, b);
    }
  }

  /** The token `key=value` for each pair. */
  function PairTokens(pairs: seq<(string, string)>): (ts: seq<string>)
    ensures |ts| == |pairs|
  {
    seq(|pairs|, i requires 0 <= i < |pairs| => pairs[i].0 + "=" + pairs[i].1)
  }

  /** The map built by inserting the pairs in order. */
  function PairsToMap(pairs: seq<(string, string)>): Settings
  {
    if pairs == [] then map[]
    else PairsToMap(pairs[..|pairs| - 1])[pairs[|pairs| - 1].0 := pairs[|pairs| - 1].1]
  }

  /** A pair that can be written as one token and read back: no `=` and no whitespace in either part. */
  predicate PlainPair(p: (string, string))
  {
    '=' !in p.0 && '=' !in p.1 && !HasWhitespace(p.0) && !HasWhitespace(p.1)
  }

  lemma NoWhitespaceInToken(p: (string, string))
    requires PlainPair(p)
    ensures !HasWhitespace(p.0 + "=" + p.1)
  {
    var t := p.0 + "=" + p.1;
    forall i | 0 <= i < |t| ensures !IsWhitespace(t[i]) {
      if i < |p.0| {
        assert t[i] == p.0[i];
      } else if i > |p.0| {
        assert t[i] == p.1[i - |p.0| - 1];
      }
    }
  }

  lemma {:induction false} CollectPairTokens(pairs: seq<(string, string)>)
    requires forall i :: 0 <= i < |pairs| ==> PlainPair(pairs[i])
    ensures Collect(PairTokens(pairs)) == PairsToMap(pairs)
    decreases |pairs|
  {
    if pairs != [] {
      var init := pairs[..|pairs| - 1];
      var last := pairs[|pairs| - 1];
      assert PairTokens(pairs)[..|pairs| - 1] == PairTokens(init);
      CollectPairTokens(init);
      SplitPairOfJoined(last.0, last.1, "");
    }
  }

  /** Writing plain pairs as `key=value` words separated by spaces and parsing the text gives the pairs back, later pairs overriding earlier ones. */
  lemma ParseJoinedPairs(pairs: seq<(string, string)>)
    requires forall i :: 0 <= i < |pairs| ==> PlainPair(pairs[i])
    ensures ParseString(JoinWords(PairTokens(pairs))) == PairsToMap(pairs)
  {
    var ts := PairTokens(pairs);
    forall i | 0 <= i < |ts| ensures ts[i] != [] && !HasWhitespace(ts[i]) {
      NoWhitespaceInToken(pairs[i]);
    }
    WordsOfJoin(ts);
    CollectPairTokens(pairs);
  }
}
