/** The bearer-token guards: the `authenticateToken` middleware and the
    inline copy of it at the top of both routers. Both take the second
    space-separated piece of the `Authorization` header as the token and
    hand it to the token library's verify, which is a parameter here. */
module Auth {
  import opened Http

  const NO_TOKEN: string := "Token não fornecido"
  const BAD_FORMAT: string := "Formato do token inválido"
  const BAD_TOKEN: string := "Token inválido"

  predicate NoSpace(s: string)
  {
    ' ' !in s
  }

  /** The pieces put back together with one space between neighbours. */
  function Join(pieces: seq<string>): string
    requires |pieces| >= 1
  {
    if |pieces| == 1 then pieces[0] else pieces[0] + " " + Join(pieces[1..])
  }

  /** `s.split(' ')`: the pieces between consecutive spaces, empty pieces
      included, so there is always at least one. Joining them gives `s`
      back, and no piece holds a space. */
  function Split(s: string): (pieces: seq<string>)
    ensures |pieces| >= 1
    ensures forall i :: 0 <= i < |pieces| ==> NoSpace(pieces[i])
    ensures Join(pieces) == s
    decreases |s|
  {
    if s == [] then [""]
    else if s[0] == ' ' then
      assert s == [' '] + s[1..];
      [""] + Split(s[1..])
    else
      var rest := Split(s[1..]);
      var pieces := [[s[0]] + rest[0]] + rest[1..];
      assert pieces[1..] == rest[1..];
      assert s == [s[0]] + s[1..];
      pieces
  }

  lemma {:induction false} JoinAppend(xs: seq<string>, ys: seq<string>)
    requires |xs| >= 1 && |ys| >= 1
    ensures Join(xs + ys) == Join(xs) + " " + Join(ys)
    decreases |xs|
  {
    if |xs| == 1 {
      assert (xs + ys)[1..] == ys;
    } else {
      assert (xs + ys)[1..] == xs[1..] + ys;
      JoinAppend(xs[1..], ys);
    }
  }

  /** The split is the only way to cut `s` at spaces into space-free pieces. */
  lemma {:induction false} SplitIsUnique(s: string, pieces: seq<string>)
    requires |pieces| >= 1
    requires forall i :: 0 <= i < |pieces| ==> NoSpace(pieces[i])
    requires Join(pieces) == s
    ensures pieces == Split(s)
    decreases |s|
  {
    if |pieces| == 1 {
      NoSpaceSplit(s);
    } else if pieces[0] == "" {
      assert s == [' '] + Join(pieces[1..]);
      assert s[1..] == Join(pieces[1..]);
      SplitIsUnique(s[1..], pieces[1..]);
    } else {
      var p := pieces[0];
      var tail := [p[1..]] + pieces[1..];
      assert Join(tail) == p[1..] + " " + Join(pieces[1..]);
      assert s == [p[0]] + (p[1..] + " " + Join(pieces[1..]));
      assert s[1..] == Join(tail);
      assert p[0] != ' ' by { assert p[0] in p; }
      assert NoSpace(tail[0]) by { forall c | c in p[1..] ensures c != ' ' { assert c in p; } }
      forall i | 0 <= i < |tail| ensures NoSpace(tail[i]) {
        if i > 0 { assert tail[i] == pieces[i]; }
      }
      SplitIsUnique(s[1..], tail);
      assert [p[0]] + p[1..] == p;
      assert tail[1..] == pieces[1..];
      assert s[0] == p[0];
      assert pieces == [[p[0]] + tail[0]] + tail[1..];
    }
  }

  /** A string without spaces splits into itself alone. */
  lemma {:induction false} NoSpaceSplit(s: string)
    requires NoSpace(s)
    ensures Split(s) == [s]
  {
  }

  /** Splitting around a space splits each side on its own. */
  lemma {:induction false} SplitAroundSpace(a: string, b: string)
    ensures Split(a + " " + b) == Split(a) + Split(b)
  {
    var xs, ys := Split(a), Split(b);
    JoinAppend(xs, ys);
    assert Join(xs + ys) == a + " " + b;
    forall i | 0 <= i < |xs + ys| ensures NoSpace((xs + ys)[i]) {
      if i >= |xs| { assert (xs + ys)[i] == ys[i - |xs|]; }
    }
    SplitIsUnique(a + " " + b, xs + ys);
  }

  /** `header.split(' ')[1]`: the second piece, absent when there is none.
      There is one exactly when the header holds a space, and it holds no
      space itself. */
  function SecondPiece(header: string): (r: Option<string>)
    ensures r.Some? <==> ' ' in header
    ensures r.Some? ==> NoSpace(r.value)
  {
    var pieces := Split(header);
    if |pieces| >= 2 then
      assert header == pieces[0] + " " + Join(pieces[1..]);
      assert header[|pieces[0]|] == ' ';
      Some(pieces[1])
    else
      assert header == pieces[0];
      None
  }

  /** What a guard decides: the request goes on with the decoded claims as
      `request.user`, or is answered with a status and a message. */
  datatype Guard = Authenticated(user: Claims) | Denied(status: int, message: string)

  /** Hands the token to the token library: 403 when it does not verify. */
  function Verified(token: string, verify: string -> Option<Claims>): Guard
  {
    match verify(token)
    case None => Denied(FORBIDDEN, BAD_TOKEN)
    case Some(claims) => Authenticated(claims)
  }

  /** `authenticateToken` of the middleware file. A missing (or empty)
      header is 401 "no token"; a header whose second piece is missing or
      empty is 401 "bad format"; a token that does not verify is 403. */
  function Authenticate(header: Option<string>, verify: string -> Option<Claims>): (r: Guard)
    ensures header.None? || header == Some("") ==> r == Denied(UNAUTHORIZED, NO_TOKEN)
    ensures r.Denied? ==> r.status == UNAUTHORIZED || r == Denied(FORBIDDEN, BAD_TOKEN)
    ensures r.Authenticated? ==> exists t :: t != "" && NoSpace(t) && verify(t) == Some(r.user)
  {
    if header.None? || header.value == "" then Denied(UNAUTHORIZED, NO_TOKEN)
    else
      var token := SecondPiece(header.value);
      if token.None? || token.value == "" then Denied(UNAUTHORIZED, BAD_FORMAT)
      else Verified(token.value, verify)
  }

  /** The guard written inline in both routers: `?.split(' ')[1]`, and one
      401 message for every way of not finding a token. */
  function InlineGuard(header: Option<string>, verify: string -> Option<Claims>): (r: Guard)
    ensures r.Denied? ==> r == Denied(UNAUTHORIZED, NO_TOKEN) || r == Denied(FORBIDDEN, BAD_TOKEN)
  {
    var token := if header.Some? then SecondPiece(header.value) else None;
    if token.None? || token.value == "" then Denied(UNAUTHORIZED, NO_TOKEN)
    else Verified(token.value, verify)
  }

  /** In `<scheme> <token>` followed by nothing or by more space-separated
      text, the second piece is the token. */
  lemma {:induction false} SecondPieceOf(scheme: string, token: string, tail: string)
    requires NoSpace(scheme) && NoSpace(token)
    requires tail == "" || tail[0] == ' '
    ensures SecondPiece(scheme + " " + token + tail) == Some(token)
  {
    var header := scheme + " " + token + tail;
    NoSpaceSplit(scheme);
    NoSpaceSplit(token);
    if tail == "" {
      assert header == scheme + " " + token;
      SplitAroundSpace(scheme, token);
    } else {
      var rest := tail[1..];
      assert header == scheme + " " + (token + " " + rest);
      SplitAroundSpace(token, rest);
      SplitAroundSpace(scheme, token + " " + rest);
    }
  }

  /** Whatever the scheme word (never checked), a header `<scheme> <token>`,
      possibly followed by more space-separated text, is judged by verifying
      the token alone. */
  lemma {:induction false} TokenIsSecondPiece(scheme: string, token: string, tail: string, verify: string -> Option<Claims>)
    requires NoSpace(scheme) && NoSpace(token) && token != ""
    requires tail == "" || tail[0] == ' '
    ensures Authenticate(Some(scheme + " " + token + tail), verify) == Verified(token, verify)
    ensures InlineGuard(Some(scheme + " " + token + tail), verify) == Verified(token, verify)
  {
    SecondPieceOf(scheme, token, tail);
    assert scheme + " " + token + tail != "";
  }

  /** A non-empty header without a space (`Bearer` alone) has no second
      piece: 401 "bad format". */
  lemma {:induction false} NoSecondPiece(header: string, verify: string -> Option<Claims>)
    requires header != "" && NoSpace(header)
    ensures Authenticate(Some(header), verify) == Denied(UNAUTHORIZED, BAD_FORMAT)
  {
  }

  /** A space right after the scheme word, or at the end of the header,
      leaves an empty second piece: 401 "bad format". */
  lemma {:induction false} EmptySecondPiece(scheme: string, tail: string, verify: string -> Option<Claims>)
    requires NoSpace(scheme)
    requires tail == "" || tail[0] == ' '
    ensures Authenticate(Some(scheme + " " + tail), verify) == Denied(UNAUTHORIZED, BAD_FORMAT)
  {
    NoSpaceSplit(scheme);
    SplitAroundSpace(scheme, tail);
    if tail == "" {
      NoSpaceSplit(tail);
    } else {
      assert tail == "" + " " + tail[1..];
      SplitAroundSpace("", tail[1..]);
      NoSpaceSplit("");
    }
  }

  /** The inline guard and the middleware reach the same decision on every
      header; they differ only in the message of one 401, where the inline
      guard says "no token" and the middleware says "bad format". */
  lemma {:induction false} GuardsAgree(header: Option<string>, verify: string -> Option<Claims>)
    ensures InlineGuard(header, verify) ==
      if Authenticate(header, verify) == Denied(UNAUTHORIZED, BAD_FORMAT)
      then Denied(UNAUTHORIZED, NO_TOKEN) else Authenticate(header, verify)
  {
  }
}
