/** SimpleTemplateRenderer: one ReplaceAll per parameter, in an order nobody chooses. */
module Template {

  /** strings.ReplaceAll: non-overlapping occurrences, found from the left. An empty pattern matches at
      every boundary. */
  function ReplaceAll(s: string, pat: string, with: string): string {
    if pat == "" then Interleave(s, with)
    else if |s| < |pat| then s
    else if pat <= s then with + ReplaceAll(s[|pat|..], pat, with)
    else [s[0]] + ReplaceAll(s[1..], pat, with)
  }

  function Interleave(s: string, filler: string): string {
    if s == "" then filler else filler + [s[0]] + Interleave(s[1..], filler)
  }

  /** Delimiters as a value. */
  datatype Delims = Delims(left: string, right: string)
  {
    function Placeholder(key: string): string { left + key + right }

    /** Both delimiters are there, and neither holds the first character of the other. */
    predicate Proper() {
      left != "" && right != "" && left[0] !in right && right[0] !in left
    }

    /** No character of the left delimiter, and not the first of the right one. */
    predicate CleanKey(key: string)
      requires Proper()
    {
      right[0] !in key && forall c | c in key :: c !in left
    }

    /** One of the two first characters. If either is missing from all literals and values, no tag comes about by
        accident. */
    predicate Marks(b: char)
      requires Proper()
    {
      b == left[0] || b == right[0]
    }
  }

  const BRACES := Delims("{{", "}}")

  class SimpleTemplateRenderer {
    var leftDelim: string
    var rightDelim: string

    constructor ()
      ensures leftDelim == "{{" && rightDelim == "}}"
    {
      leftDelim, rightDelim := "{{", "}}";
    }

    method WithDelimiters(left: string, right: string) returns (r: SimpleTemplateRenderer)
      modifies this
      ensures r == this && leftDelim == left && rightDelim == right
    {
      leftDelim, rightDelim := left, right;
      return this;
    }

    /** The loop visits the parameters in any order. Whatever the delimiters, the result is that of some order, and one
        parameter is one ReplaceAll. With proper delimiters, if the first character of one of them occurs neither in the
        template outside its tags nor in any value, the result is the simultaneous substitution. */
    method Render(template: string, params: map<string, string>) returns (result: string)
      ensures exists order ::
                Enumerates(order, params.Keys)
                && result == Fold(template, order, params, Delims(leftDelim, rightDelim))
      ensures params == map[] ==> result == template
      ensures forall key | params.Keys == {key} ::
                result == ReplaceAll(template, leftDelim + key + rightDelim, params[key])
      ensures var d := Delims(leftDelim, rightDelim);
              d.Proper() ==>
                forall pieces, b | d.Marks(b) && CleanPieces(pieces, d, b) && CleanParams(params, d, b)
                                && template == Text(pieces, d) ::
                  result == Text(Substitute(pieces, params, params.Keys), d)
    {
      ghost var d := Delims(leftDelim, rightDelim);
      result := template;
      var todo := params.Keys;
      ghost var order: seq<string> := [];
      while todo != {}
        invariant todo <= params.Keys && Enumerates(order, params.Keys - todo)
        invariant result == Fold(template, order, params, d)
        decreases todo
      {
        var key :| key in todo;
        result := ReplaceAll(result, leftDelim + key + rightDelim, params[key]);
        assert (order + [key])[..|order|] == order;
        order := order + [key];
        todo := todo - {key};
      }
      assert params.Keys - todo == params.Keys;
      forall key | params.Keys == {key}
        ensures result == ReplaceAll(template, leftDelim + key + rightDelim, params[key])
      {
        OnlyOrder(order, key);
        FoldStep(template, [], key, params, d);
        assert [] + [key] == [key];
      }
      if d.Proper() {
        forall pieces, b | d.Marks(b) && CleanPieces(pieces, d, b) && CleanParams(params, d, b)
                        && template == Text(pieces, d)
          ensures result == Text(Substitute(pieces, params, params.Keys), d)
        {
          FoldSubstitutes(pieces, order, params, params.Keys, d, b);
        }
      }
    }
  }

  /** A list of the keys, each once. */
  ghost predicate Enumerates(order: seq<string>, keys: set<string>) {
    && (forall i | 0 <= i < |order| :: order[i] in keys)
    && (forall k | k in keys :: k in order)
    && (forall i, j | 0 <= i < j < |order| :: order[i] != order[j])
  }

  lemma OnlyOrder(order: seq<string>, key: string)
    requires Enumerates(order, {key})
    ensures order == [key]
  {
    EnumeratesCount(order, {key});
    assert order[0] in {key};
  }

  lemma {:induction false} EnumeratesCount(order: seq<string>, keys: set<string>)
    requires Enumerates(order, keys)
    ensures |order| == |keys|
  {
    if order == [] {
      assert keys == {};
    } else {
      AllButTheLast(order, keys);
      EnumeratesCount(order[..|order| - 1], keys - {order[|order| - 1]});
    }
  }

  function Fold(template: string, order: seq<string>, params: map<string, string>, d: Delims): string
    requires forall i | 0 <= i < |order| :: order[i] in params
  {
    if order == [] then template
    else
      var n := |order| - 1;
      ReplaceAll(Fold(template, order[..n], params, d), d.Placeholder(order[n]), params[order[n]])
  }

  // ---------------------------------------------------------------- what ReplaceAll is

  function Join(parts: seq<string>, sep: string): string
    requires parts != []
  {
    if |parts| == 1 then parts[0] else parts[0] + sep + Join(parts[1..], sep)
  }

  /** The pattern occurs in `s + follow` nowhere before `follow`. */
  ghost predicate NotBefore(pat: string, s: string, follow: string) {
    forall j | 0 <= j < |s| :: !(pat <= (s + follow)[j..])
  }

  /** `s` cut at the occurrences of the pattern, each found from the left. */
  ghost predicate Cuts(parts: seq<string>, s: string, pat: string) {
    parts != [] && s == Join(parts, pat) && forall i | 0 <= i < |parts| :: Clear(parts, i, pat)
  }

  ghost predicate Clear(parts: seq<string>, i: nat, pat: string)
    requires i < |parts|
  {
    NotBefore(pat, parts[i], if i == |parts| - 1 then "" else pat)
  }

  function Split(s: string, pat: string): (parts: seq<string>)
    requires pat != ""
    ensures parts != []
  {
    if |s| < |pat| then [s]
    else if pat <= s then [""] + Split(s[|pat|..], pat)
    else
      var rest := Split(s[1..], pat);
      [[s[0]] + rest[0]] + rest[1..]
  }

  /** REPLACEMENT. ReplaceAll cuts the text at the pattern and joins the parts with the replacement. */
  lemma {:induction false} ReplaceAllCutsAndJoins(s: string, pat: string, with: string)
    requires pat != ""
    ensures Cuts(Split(s, pat), s, pat) && ReplaceAll(s, pat, with) == Join(Split(s, pat), with)
  {
    if |s| >= |pat| {
      if pat <= s {
        ReplaceAllCutsAndJoins(s[|pat|..], pat, with);
        CutAtMatch(s, pat, with);
      } else {
        ReplaceAllCutsAndJoins(s[1..], pat, with);
        Prepend(s[0], Split(s[1..], pat), pat);
        Prepend(s[0], Split(s[1..], pat), with);
        CutLater(s, Split(s[1..], pat), pat);
      }
    }
  }

  lemma CutAtMatch(s: string, pat: string, with: string)
    requires pat != "" && pat <= s && Cuts(Split(s[|pat|..], pat), s[|pat|..], pat)
    ensures Cuts(Split(s, pat), s, pat) && Join(Split(s, pat), with) == with + Join(Split(s[|pat|..], pat), with)
  {
    var rest := Split(s[|pat|..], pat);
    var parts := [""] + rest;
    assert parts[1..] == rest && s == pat + s[|pat|..];
    assert "" + pat + Join(rest, pat) == s && "" + with + Join(rest, with) == with + Join(rest, with);
    forall i | 0 < i < |parts| ensures Clear(parts, i, pat) {
      assert parts[i] == rest[i - 1] && Clear(rest, i - 1, pat);
    }
  }

  lemma CutLater(s: string, rest: seq<string>, pat: string)
    requires s != "" && pat != "" && !(pat <= s) && Cuts(rest, s[1..], pat)
    ensures Cuts([[s[0]] + rest[0]] + rest[1..], s, pat)
  {
    var first := [s[0]] + rest[0];
    var parts := [first] + rest[1..];
    Prepend(s[0], rest, pat);
    assert s == [s[0]] + s[1..];
    FirstPartIsClear(s, rest, pat);
    RestStaysClear(first, rest, pat);
    assert |parts| == |rest| && Clear(parts, 0, pat);
  }

  lemma RestStaysClear(first: string, rest: seq<string>, pat: string)
    requires rest != [] && forall i | 0 <= i < |rest| :: Clear(rest, i, pat)
    ensures forall i | 0 < i < |rest| :: Clear([first] + rest[1..], i, pat)
  {
    var parts := [first] + rest[1..];
    forall i | 0 < i < |rest| ensures Clear(parts, i, pat) {
      assert parts[i] == rest[i] && Clear(rest, i, pat);
    }
  }

  lemma Prepend(c: char, parts: seq<string>, sep: string)
    requires parts != []
    ensures Join([[c] + parts[0]] + parts[1..], sep) == [c] + Join(parts, sep)
  {
    assert ([[c] + parts[0]] + parts[1..])[1..] == parts[1..];
  }

  lemma FirstPartIsClear(s: string, rest: seq<string>, pat: string)
    requires s != "" && pat != "" && !(pat <= s) && Cuts(rest, s[1..], pat)
    ensures var follow := if |rest| == 1 then "" else pat;
            NotBefore(pat, [s[0]] + rest[0], follow)
  {
    var follow := if |rest| == 1 then "" else pat;
    var first := [s[0]] + rest[0];
    forall j | 0 <= j < |first| ensures !(pat <= (first + follow)[j..]) {
      if j == 0 {
        assert first + follow <= s by {
          assert s == [s[0]] + s[1..] && rest[0] + follow <= s[1..];
        }
      } else {
        assert Clear(rest, 0, pat);
        assert (first + follow)[j..] == (rest[0] + follow)[j - 1..];
      }
    }
  }

  /** The replacement for the empty pattern stands before each character and at the end. */
  lemma {:induction false} EmptyPattern(s: string, c: char, with: string)
    ensures ReplaceAll("", "", with) == with
    ensures ReplaceAll(s + [c], "", with) == ReplaceAll(s, "", with) + [c] + with
  {
    if s == "" {
      assert (s + [c])[1..] == "";
    } else {
      EmptyPattern(s[1..], c, with);
      assert (s + [c])[1..] == s[1..] + [c];
    }
  }

  // ---------------------------------------------------------------- templates as literals and tags

  datatype Piece = Lit(text: string) | Tag(key: string)

  predicate CleanPiece(p: Piece, d: Delims, b: char)
    requires d.Proper()
  {
    if p.Lit? then b !in p.text else d.CleanKey(p.key)
  }

  ghost predicate CleanPieces(ps: seq<Piece>, d: Delims, b: char)
    requires d.Proper()
  {
    forall i | 0 <= i < |ps| :: CleanPiece(ps[i], d, b)
  }

  ghost predicate CleanParams(params: map<string, string>, d: Delims, b: char)
    requires d.Proper()
  {
    forall k | k in params :: d.CleanKey(k) && b !in params[k]
  }

  function Show(p: Piece, d: Delims): string {
    if p.Lit? then p.text else d.Placeholder(p.key)
  }

  function Text(ps: seq<Piece>, d: Delims): string {
    if ps == [] then "" else Show(ps[0], d) + Text(ps[1..], d)
  }

  /** Replaces at once every tag whose key is among `keys`; other tags stay as they are. */
  function Substitute(ps: seq<Piece>, params: map<string, string>, keys: set<string>): seq<Piece>
    requires keys <= params.Keys
  {
    seq(|ps|, i requires 0 <= i < |ps| => SubstituteOne(ps[i], params, keys))
  }

  function SubstituteOne(p: Piece, params: map<string, string>, keys: set<string>): Piece
    requires keys <= params.Keys
  {
    if p.Tag? && p.key in keys then Lit(params[p.key]) else p
  }

  // ---------------------------------------------------------------- one ReplaceAll on a clean template

  /** Scanning passes over text that does not hold the first character of the pattern. */
  lemma {:induction false} SkipClean(a: string, rest: string, pat: string, v: string)
    requires pat != "" && pat[0] !in a
    ensures ReplaceAll(a + rest, pat, v) == a + ReplaceAll(rest, pat, v)
  {
    if a == "" {
      assert a + rest == rest;
    } else {
      var s := a + rest;
      assert s[0] == a[0] && s[1..] == a[1..] + rest;
      Mismatch(pat, s, 0);
      StepOver(s, pat, v);
      SkipClean(a[1..], rest, pat, v);
      assert a == [a[0]] + a[1..];
    }
  }

  lemma Mismatch(pat: string, s: string, i: nat)
    requires i < |pat| && i < |s| && pat[i] != s[i]
    ensures !(pat <= s)
  {
  }

  lemma TooShort(s: string, pat: string, v: string)
    requires pat != "" && |s| < |pat|
    ensures ReplaceAll(s, pat, v) == s
  {
  }

  /** One character that starts no match is copied. */
  lemma StepOver(s: string, pat: string, v: string)
    requires s != "" && pat != "" && !(pat <= s)
    ensures ReplaceAll(s, pat, v) == [s[0]] + ReplaceAll(s[1..], pat, v)
  {
    if |s| < |pat| {
      TooShort(s[1..], pat, v);
      assert s == [s[0]] + s[1..];
    }
  }

  /** A placeholder is recognized exactly where its own tag stands. */
  lemma TagMatches(key: string, k: string, rest: string, d: Delims)
    requires d.Proper() && d.CleanKey(key) && d.CleanKey(k)
    ensures d.Placeholder(key) <= d.Placeholder(k) + rest <==> key == k
  {
    var pat, s, n := d.Placeholder(key), d.Placeholder(k) + rest, |d.left|;
    assert pat[n + |key|] == d.right[0] && s[n + |k|] == d.right[0];
    if |key| < |k| {
      assert s[n + |key|] == k[|key|];
      Mismatch(pat, s, n + |key|);
    } else if |k| < |key| {
      assert pat[n + |k|] == key[|k|];
      Mismatch(pat, s, n + |k|);
    } else if key != k {
      var i :| 0 <= i < |key| && key[i] != k[i];
      assert pat[n + i] == key[i] && s[n + i] == k[i];
      Mismatch(pat, s, n + i);
    }
  }

  lemma ReplaceInTag(key: string, v: string, k: string, rest: string, d: Delims)
    requires d.Proper() && d.CleanKey(key) && d.CleanKey(k)
    ensures ReplaceAll(d.Placeholder(k) + rest, d.Placeholder(key), v)
         == (if k == key then v else d.Placeholder(k)) + ReplaceAll(rest, d.Placeholder(key), v)
  {
    TagMatches(key, k, rest, d);
    var s := d.Placeholder(k) + rest;
    if k == key {
      assert s[|d.Placeholder(key)|..] == rest;
    } else {
      StepOver(s, d.Placeholder(key), v);
      Regroup(d.left, k + d.right, rest);
      TagText(d, k, rest);
      SkipTag(d.left, 1, k + d.right, rest, d.Placeholder(key), v);
      TagText(d, k, ReplaceAll(rest, d.Placeholder(key), v));
    }
  }

  lemma TagText(d: Delims, k: string, rest: string)
    requires d.left != ""
    ensures d.Placeholder(k) + rest == [d.left[0]] + (d.left[1..] + (k + d.right) + rest)
    ensures (d.Placeholder(k) + rest)[0] == d.left[0]
    ensures (d.Placeholder(k) + rest)[1..] == d.left[1..] + (k + d.right) + rest
  {
    assert d.left == [d.left[0]] + d.left[1..];
  }

  /** No match of a pattern that begins with `left` starts inside `left`, if what follows begins differently. */
  lemma {:induction false} SkipTag(left: string, i: nat, tail: string, rest: string, pat: string, v: string)
    requires left != "" && left <= pat && tail != "" && tail[0] !in left && left[0] !in tail && 1 <= i <= |left|
    ensures ReplaceAll(left[i..] + tail + rest, pat, v) == left[i..] + tail + ReplaceAll(rest, pat, v)
    decreases |left| - i
  {
    if i == |left| {
      assert left[i..] + tail == tail;
      SkipClean(tail, rest, pat, v);
    } else {
      StepInTag(left, i, tail, rest, pat, v);
      SkipTag(left, i + 1, tail, rest, pat, v);
      FirstOff(left, i, tail, ReplaceAll(rest, pat, v));
    }
  }

  lemma StepInTag(left: string, i: nat, tail: string, rest: string, pat: string, v: string)
    requires left <= pat && tail != "" && tail[0] !in left && 1 <= i < |left|
    ensures ReplaceAll(left[i..] + tail + rest, pat, v) == [left[i]] + ReplaceAll(left[i + 1..] + tail + rest, pat, v)
  {
    var s := left[i..] + tail + rest;
    var m := |left| - i;
    assert s[m] == tail[0] && pat[m] == left[m];
    Mismatch(pat, s, m);
    StepOver(s, pat, v);
    FirstOff(left, i, tail, rest);
  }

  lemma FirstOff(s: string, i: nat, tail: string, rest: string)
    requires i < |s|
    ensures s[i..] + tail + rest == [s[i]] + (s[i + 1..] + tail + rest)
    ensures (s[i..] + tail + rest)[0] == s[i] && (s[i..] + tail + rest)[1..] == s[i + 1..] + tail + rest
  {
  }

  /** No match starts in text without the mark of the right delimiter: the first such mark behind it belongs to a tag,
      whose left delimiter ends where a match would have the key. */
  lemma {:induction false} NoEarlyMatch(a: string, ps: seq<Piece>, key: string, d: Delims)
    requires d.Proper() && a != "" && d.right[0] !in a && CleanPieces(ps, d, d.right[0]) && d.CleanKey(key)
    ensures !(d.Placeholder(key) <= a + Text(ps, d))
    decreases |ps|
  {
    if ps == [] {
      assert a + Text(ps, d) == a;
      NoClosingMark(key, a, d);
    } else if ps[0].Lit? {
      Regroup(a, ps[0].text, Text(ps[1..], d));
      NoEarlyMatch(a + ps[0].text, ps[1..], key, d);
    } else {
      Regroup(a, d.Placeholder(ps[0].key), Text(ps[1..], d));
      FirstTagInTheWay(a, ps[0].key, Text(ps[1..], d), key, d);
    }
  }

  lemma NoClosingMark(key: string, s: string, d: Delims)
    requires d.Proper() && d.right[0] !in s
    ensures !(d.Placeholder(key) <= s)
  {
    var pat, close := d.Placeholder(key), |d.left| + |key|;
    assert pat[close] == d.right[0];
    if |pat| <= |s| {
      Mismatch(pat, s, close);
    }
  }

  lemma Regroup(a: string, b: string, c: string)
    ensures a + (b + c) == a + b + c
  {
  }

  lemma FirstTagInTheWay(a: string, k: string, rest: string, key: string, d: Delims)
    requires d.Proper() && a != "" && d.right[0] !in a && d.CleanKey(k) && d.CleanKey(key)
    ensures !(d.Placeholder(key) <= a + d.Placeholder(k) + rest)
  {
    var pat, s, n := d.Placeholder(key), a + d.Placeholder(k) + rest, |d.left|;
    var end, close := |a| + n + |k|, n + |key|;
    assert s[end] == d.right[0] && pat[close] == d.right[0];
    if end < close {
      assert pat[end] == key[end - n];
      Mismatch(pat, s, end);
    } else if end == close {
      var last := |a| + n - 1;
      assert s[last] == d.left[n - 1] && pat[last] == key[last - n] && key[last - n] in key;
      Mismatch(pat, s, last);
    } else {
      assert s[close] != d.right[0] by {
        assert s[close] == if close < |a| then a[close]
                           else if close < |a| + n then d.left[close - |a|]
                           else k[close - |a| - n];
      }
      Mismatch(pat, s, close);
    }
  }

  /** Scanning passes over literal text in front of pieces that lack the same mark. */
  lemma {:induction false} SkipLit(a: string, ps: seq<Piece>, key: string, v: string, d: Delims, b: char)
    requires d.Proper() && d.Marks(b) && b !in a && CleanPieces(ps, d, b) && d.CleanKey(key)
    ensures ReplaceAll(a + Text(ps, d), d.Placeholder(key), v) == a + ReplaceAll(Text(ps, d), d.Placeholder(key), v)
  {
    if b == d.left[0] {
      assert d.Placeholder(key)[0] == d.left[0];
      SkipClean(a, Text(ps, d), d.Placeholder(key), v);
    } else if a == "" {
      assert a + Text(ps, d) == Text(ps, d);
    } else {
      var s := a + Text(ps, d);
      assert s[0] == a[0] && s[1..] == a[1..] + Text(ps, d);
      NoEarlyMatch(a, ps, key, d);
      StepOver(s, d.Placeholder(key), v);
      SkipLit(a[1..], ps, key, v, d, b);
      assert a == [a[0]] + a[1..];
    }
  }

  lemma {:induction false} ReplaceInPieces(ps: seq<Piece>, params: map<string, string>, key: string, d: Delims,
                                           b: char)
    requires d.Proper() && d.Marks(b) && CleanPieces(ps, d, b) && key in params && d.CleanKey(key)
    ensures ReplaceAll(Text(ps, d), d.Placeholder(key), params[key]) == Text(Substitute(ps, params, {key}), d)
  {
    var after := Substitute(ps, params, {key});
    if ps == [] {
      TooShort("", d.Placeholder(key), params[key]);
    } else {
      ReplaceInPieces(ps[1..], params, key, d, b);
      assert after[1..] == Substitute(ps[1..], params, {key});
      if ps[0].Lit? {
        SkipLit(ps[0].text, ps[1..], key, params[key], d, b);
      } else {
        ReplaceInTag(key, params[key], ps[0].key, Text(ps[1..], d), d);
      }
    }
  }

  // ---------------------------------------------------------------- one after another, and all at once

  /** Substituting one key after others is substituting them together, because values bring no new tags. */
  lemma SubstituteMore(ps: seq<Piece>, params: map<string, string>, keys: set<string>, key: string, d: Delims, b: char)
    requires d.Proper() && keys <= params.Keys && key in params && CleanPieces(ps, d, b) && CleanParams(params, d, b)
    ensures CleanPieces(Substitute(ps, params, keys), d, b)
    ensures Substitute(Substitute(ps, params, keys), params, {key}) == Substitute(ps, params, keys + {key})
  {
  }

  lemma FoldStep(t: string, order: seq<string>, key: string, params: map<string, string>, d: Delims)
    requires key in params && forall i | 0 <= i < |order| :: order[i] in params
    ensures Fold(t, order + [key], params, d)
         == ReplaceAll(Fold(t, order, params, d), d.left + key + d.right, params[key])
  {
    var longer := order + [key];
    assert longer[..|order|] == order && longer[|longer| - 1] == key;
  }

  lemma AllButTheLast(order: seq<string>, keys: set<string>)
    requires order != [] && Enumerates(order, keys)
    ensures var before, key := order[..|order| - 1], order[|order| - 1];
            && before + [key] == order && key in keys && keys - {key} + {key} == keys
            && Enumerates(before, keys - {key})
  {
    assert forall k | k in keys && k != order[|order| - 1] :: k in order[..|order| - 1];
  }

  /** CONFLUENCE. Let the delimiters be proper, the keys clean, and the first character of one delimiter occur in no
      value and nowhere in the template outside its tags. Then replacing the parameters one after another, in any
      order, is the simultaneous substitution, which keeps the tags of unknown keys. */
  lemma {:induction false} FoldSubstitutes(ps: seq<Piece>, order: seq<string>, params: map<string, string>,
                                           keys: set<string>, d: Delims, b: char)
    requires d.Proper() && d.Marks(b) && CleanPieces(ps, d, b) && CleanParams(params, d, b)
    requires Enumerates(order, keys) && keys <= params.Keys
    ensures Fold(Text(ps, d), order, params, d) == Text(Substitute(ps, params, keys), d)
  {
    if order == [] {
      assert keys == {};
      assert Substitute(ps, params, keys) == ps;
    } else {
      var before, key := order[..|order| - 1], order[|order| - 1];
      var others := keys - {key};
      AllButTheLast(order, keys);
      FoldSubstitutes(ps, before, params, others, d, b);
      FoldStep(Text(ps, d), before, key, params, d);
      SubstituteMore(ps, params, others, key, d, b);
      ReplaceInPieces(Substitute(ps, params, others), params, key, d, b);
    }
  }

  /** Two orders of the same parameters agree. */
  lemma OrderDoesNotMatter(ps: seq<Piece>, order: seq<string>, other: seq<string>, params: map<string, string>,
                           d: Delims, b: char)
    requires d.Proper() && d.Marks(b) && CleanPieces(ps, d, b) && CleanParams(params, d, b)
    requires Enumerates(order, params.Keys) && Enumerates(other, params.Keys)
    ensures Fold(Text(ps, d), order, params, d) == Fold(Text(ps, d), other, params, d)
  {
    FoldSubstitutes(ps, order, params, params.Keys, d, b);
    FoldSubstitutes(ps, other, params, params.Keys, d, b);
  }

  /** The default delimiters are proper, and so are "${" and "}"; a key without their characters is clean. */
  lemma ProperDelimiters(key: string)
    ensures BRACES.Proper() && (BRACES.CleanKey(key) <==> '{' !in key && '}' !in key)
    ensures BRACES.Marks('{') && BRACES.Marks('}')
    ensures var d := Delims("${", "}");
            d.Proper() && (d.CleanKey(key) <==> '$' !in key && '{' !in key && '}' !in key) && d.Marks('$')
  {
  }

  // ---------------------------------------------------------------- values that make tags

  /** A value that is a tag of its own makes the order show, so the guarantee needs clean values. */
  lemma DirtyValuesBreakConfluence(params: map<string, string>, a: string, b: string, d: Delims)
    requires d.Proper() && params.Keys == {a, b} && a != b && d.CleanKey(a) && d.CleanKey(b)
    requires params[a] == d.Placeholder(b)
    ensures Enumerates([a, b], params.Keys) && Enumerates([b, a], params.Keys)
    ensures Fold(d.Placeholder(a), [a, b], params, d) == params[b]
    ensures Fold(d.Placeholder(a), [b, a], params, d) == d.Placeholder(b)
  {
    FoldsOut(d.Placeholder(a), [a], b, params, d);
    FoldsOut(d.Placeholder(a), [b], a, params, d);
    ReplaceWhole(a, params[a], a, d);
    ReplaceWhole(b, params[b], b, d);
    ReplaceWhole(b, params[b], a, d);
  }

  /** It is not enough that no single value holds both marks: two values whose tags are neighbours can put a tag
      together between them, which one order of the parameters goes on to replace and another leaves. */
  lemma JoinedValuesBreakConfluence(params: map<string, string>, a: string, b: string, c: string, d: Delims)
    requires d.Proper() && params.Keys == {a, b, c} && a != b && a != c && b != c
    requires d.CleanKey(a) && d.CleanKey(b) && d.CleanKey(c)
    requires d.right[0] !in params[a] && params[a] + params[b] == d.Placeholder(c)
    ensures Enumerates([a, b, c], params.Keys) && Enumerates([c, a, b], params.Keys)
    ensures Fold(Text([Tag(a), Tag(b)], d), [a, b, c], params, d) == params[c]
    ensures Fold(Text([Tag(a), Tag(b)], d), [c, a, b], params, d) == d.Placeholder(c)
  {
    JoinThenReplace(params, a, b, c, d);
    ReplaceThenJoin(params, a, b, c, d);
  }

  lemma JoinThenReplace(params: map<string, string>, a: string, b: string, c: string, d: Delims)
    requires d.Proper() && a in params && b in params && c in params && a != b
    requires d.CleanKey(a) && d.CleanKey(b) && d.CleanKey(c)
    requires d.right[0] !in params[a] && params[a] + params[b] == d.Placeholder(c)
    ensures Fold(Text([Tag(a), Tag(b)], d), [a, b, c], params, d) == params[c]
  {
    var t := Text([Tag(a), Tag(b)], d);
    FoldsOut(t, [a, b], c, params, d);
    FoldsOut(t, [a], b, params, d);
    JoinTags(params, a, b, c, d);
    ReplaceWhole(c, params[c], c, d);
  }

  lemma ReplaceThenJoin(params: map<string, string>, a: string, b: string, c: string, d: Delims)
    requires d.Proper() && a in params && b in params && c in params && a != b && a != c && b != c
    requires d.CleanKey(a) && d.CleanKey(b) && d.CleanKey(c)
    requires d.right[0] !in params[a] && params[a] + params[b] == d.Placeholder(c)
    ensures Fold(Text([Tag(a), Tag(b)], d), [c, a, b], params, d) == d.Placeholder(c)
  {
    var t := Text([Tag(a), Tag(b)], d);
    FoldsOut(t, [c, a], b, params, d);
    FoldsOut(t, [c], a, params, d);
    NoTagFor(params, a, b, c, d);
    JoinTags(params, a, b, c, d);
  }

  lemma ReplaceWhole(key: string, v: string, k: string, d: Delims)
    requires d.Proper() && d.CleanKey(key) && d.CleanKey(k)
    ensures ReplaceAll(d.Placeholder(k), d.Placeholder(key), v) == if k == key then v else d.Placeholder(k)
  {
    ReplaceInTag(key, v, k, "", d);
    assert d.Placeholder(k) + "" == d.Placeholder(k);
    TooShort("", d.Placeholder(key), v);
    assert v + "" == v;
  }

  lemma NoTagFor(params: map<string, string>, a: string, b: string, c: string, d: Delims)
    requires d.Proper() && c in params && a != c && b != c && d.CleanKey(a) && d.CleanKey(b) && d.CleanKey(c)
    ensures ReplaceAll(Text([Tag(a), Tag(b)], d), d.Placeholder(c), params[c]) == Text([Tag(a), Tag(b)], d)
  {
    ReplaceInPieces([Tag(a), Tag(b)], params, c, d, d.left[0]);
    assert Substitute([Tag(a), Tag(b)], params, {c}) == [Tag(a), Tag(b)];
  }

  lemma JoinTags(params: map<string, string>, a: string, b: string, c: string, d: Delims)
    requires d.Proper() && a in params && b in params && a != b && d.CleanKey(a) && d.CleanKey(b)
    requires d.right[0] !in params[a] && params[a] + params[b] == d.Placeholder(c)
    ensures var t := ReplaceAll(Text([Tag(a), Tag(b)], d), d.Placeholder(a), params[a]);
            ReplaceAll(t, d.Placeholder(b), params[b]) == d.Placeholder(c)
  {
    var ab, half, joined := [Tag(a), Tag(b)], [Lit(params[a]), Tag(b)], [Lit(params[a]), Lit(params[b])];
    ReplaceInPieces(ab, params, a, d, d.right[0]);
    assert Substitute(ab, params, {a}) == half;
    ReplaceInPieces(half, params, b, d, d.right[0]);
    assert Substitute(half, params, {b}) == joined;
    TextOfTwo(Lit(params[a]), Lit(params[b]), d);
  }

  lemma TextOfTwo(p: Piece, q: Piece, d: Delims)
    ensures Text([p, q], d) == Show(p, d) + Show(q, d)
  {
    assert [q][1..] == [] && [q][0] == q;
    assert Text([q], d) == Show(q, d) + "" == Show(q, d);
    assert [p, q][1..] == [q] && [p, q][0] == p;
  }

  lemma FoldsOut(t: string, order: seq<string>, key: string, params: map<string, string>, d: Delims)
    requires 1 <= |order| <= 2 && key in params && forall i | 0 <= i < |order| :: order[i] in params
    ensures Fold(t, order + [key], params, d)
         == ReplaceAll(Fold(t, order, params, d), d.Placeholder(key), params[key])
    ensures |order| == 1 ==> Fold(t, order, params, d) == ReplaceAll(t, d.Placeholder(order[0]), params[order[0]])
    ensures order + [key] == if |order| == 1 then [order[0], key] else [order[0], order[1], key]
  {
    FoldStep(t, order, key, params, d);
    if |order| == 1 {
      FoldStep(t, [], order[0], params, d);
      assert [] + [order[0]] == order;
    }
  }
}
