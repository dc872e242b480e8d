/** Reading the bearer token out of an `Authorization` header: the header
    must start with `Bearer `, and the token is the second piece of the
    header split at every single space. */
module AuthHeader {
  import opened Common

  const BearerPrefix: string := "Bearer "

  /** `String.prototype.startsWith` */
  predicate StartsWith(s: string, prefix: string)
  {
    |prefix| <= |s| && s[..|prefix|] == prefix
  }

  /** JavaScript's `s.split(' ')`: the maximal space-free runs of `s`, with
      an empty piece between two adjacent spaces and at either end next to
      a space. There is always at least one piece, and there is exactly one
      when `s` has no space. The first piece is where `s` starts, and it
      runs to the end of `s` or to its first space. */
  function Split(s: string): (r: seq<string>)
    ensures |r| >= 1
    ensures forall i :: 0 <= i < |r| ==> ' ' !in r[i]
    ensures r[0] <= s && (|r[0]| == |s| || s[|r[0]|] == ' ')
    ensures |r| == 1 <==> ' ' !in s
    decreases |s|
  {
    if s == [] then [""]
    else if s[0] == ' ' then [""] + Split(s[1..])
    else
      var rest := Split(s[1..]);
      assert s == [s[0]] + s[1..];
      [[s[0]] + rest[0]] + rest[1..]
  }

  /** Joining the pieces back with single spaces restores the string. */
  lemma {:induction false} JoinSplit(s: string)
    ensures JoinWith(Split(s), " ") == s
    decreases |s|
  {
    if s == [] {
    } else if s[0] == ' ' {
      JoinSplit(s[1..]);
      var rest := Split(s[1..]);
      assert ([""] + rest)[1..] == rest;
      assert s == " " + s[1..];
    } else {
      JoinSplit(s[1..]);
      var rest := Split(s[1..]);
      var r := [[s[0]] + rest[0]] + rest[1..];
      assert Split(s) == r;
      assert r[1..] == rest[1..];
      assert s == [s[0]] + s[1..];
    }
  }

  /** A string without spaces splits into itself alone. */
  lemma {:induction false} SplitNoSpace(w: string)
    requires ' ' !in w
    ensures Split(w) == [w]
  {
    var r := Split(w);
    assert r[0] == w;
    assert r == [r[0]];
  }

  /** A space-free word followed by a space splits into that word and then
      the pieces of the rest. */
  lemma {:induction false} SplitWord(w: string, rest: string)
    requires ' ' !in w
    ensures Split(w + " " + rest) == [w] + Split(rest)
    decreases |w|
  {
    var s := w + " " + rest;
    if w == [] {
      assert s[1..] == rest;
    } else {
      assert s[0] == w[0];
      assert s[1..] == w[1..] + " " + rest;
      SplitWord(w[1..], rest);
      assert [w[0]] + w[1..] == w;
    }
  }

  /** Splitting is injective on space-free pieces: splitting the joined
      pieces gives them back. */
  lemma {:induction false} SplitJoin(pieces: seq<string>)
    requires |pieces| >= 1
    requires forall i :: 0 <= i < |pieces| ==> ' ' !in pieces[i]
    ensures Split(JoinWith(pieces, " ")) == pieces
  {
    if |pieces| == 1 {
      SplitNoSpace(pieces[0]);
    } else {
      SplitJoin(pieces[1..]);
      SplitWord(pieces[0], JoinWith(pieces[1..], " "));
      assert [pieces[0]] + pieces[1..] == pieces;
    }
  }

  /** The expression that guards and extracts the token in `protect`: no
      token unless the header is present and starts with `Bearer `;
      otherwise the second piece of the split, which is the text after the
      prefix up to the next space or the end of the header (and is empty
      for the header `Bearer ` itself). */
  function ExtractToken(header: Option<string>): (token: Option<string>)
    ensures token.Some? <==> header.Some? && StartsWith(header.value, BearerPrefix)
    ensures token.Some? ==>
      && ' ' !in token.value
      && StartsWith(header.value, BearerPrefix + token.value)
      && (|header.value| == |BearerPrefix| + |token.value|
          || header.value[|BearerPrefix| + |token.value|] == ' ')
  {
    if header.Some? && StartsWith(header.value, BearerPrefix) then
      var h := header.value;
      var after := h[|BearerPrefix|..];
      assert h == "Bearer" + " " + after;
      SplitWord("Bearer", after);
      var t := Split(after)[0];
      assert h[..|BearerPrefix| + |t|] == BearerPrefix + t;
      Some(Split(h)[1])
    else None
  }

  /** A header in the form `Bearer <token>` of section 2.1 of RFC 6750
      yields exactly its token. */
  lemma ExtractTokenOfBearer(token: string)
    requires ' ' !in token
    ensures ExtractToken(Some(BearerPrefix + token)) == Some(token)
  {
    var h := BearerPrefix + token;
    assert StartsWith(h, BearerPrefix);
    var t := ExtractToken(Some(h)).value;
    assert h[..|BearerPrefix| + |t|] == BearerPrefix + t;
    assert |t| == |token|;
    assert h[|BearerPrefix|..] == t;
    assert h[|BearerPrefix|..] == token;
  }
}
