/** Normalisation of the paths under which agents store files in a job's workspace. */
module Paths {
  import opened Prelude
  import opened Text

  datatype PathError = Missing | Absolute | Empty | Escape | Home

  function Forward(s: string): string {
    if s == "" then "" else [if s[0] == '\\' then '/' else s[0]] + Forward(s[1..])
  }

  /** The pieces between slashes; always at least one. */
  function Split(s: string): (parts: seq<string>)
    ensures parts != []
  {
    if s == "" then [""]
    else
      var rest := Split(s[1..]);
      if s[0] == '/' then [""] + rest else [[s[0]] + rest[0]] + rest[1..]
  }

  function Join(parts: seq<string>): string {
    if parts == [] then "" else if |parts| == 1 then parts[0] else parts[0] + "/" + Join(parts[1..])
  }

  /** Drops empty pieces and single dots. */
  function Kept(parts: seq<string>): seq<string> {
    if parts == [] then []
    else (if parts[0] == "" || parts[0] == "." then [] else [parts[0]]) + Kept(parts[1..])
  }

  predicate DriveLike(s: string) { |s| > 1 && s[1] == ':' }

  /** The checks and the clean-up of a path with forward slashes and no outer white space. */
  function Normalise(raw: string): Result<string, PathError> {
    if (raw != "" && raw[0] == '/') || DriveLike(raw) then Err(Absolute)
    else
      var parts := Kept(Split(raw));
      if parts == [] then Err(Empty)
      else if exists i :: 0 <= i < |parts| && parts[i] == ".." then Err(Escape)
      else if exists i :: 0 <= i < |parts| && parts[i] != "" && parts[i][0] == '~' then Err(Home)
      else Ok(Join(parts))
  }

  function Sanitize(userPath: string): Result<string, PathError> {
    if Strip(userPath) == "" then Err(Missing) else Normalise(Strip(Forward(userPath)))
  }

  // ---- Splitting and joining are inverse ----

  /** A piece of a path: no slash of either kind. */
  predicate Piece(p: string) { '/' !in p && '\\' !in p }

  predicate Pieces(parts: seq<string>) { forall i :: 0 <= i < |parts| ==> Piece(parts[i]) }

  lemma {:induction false} JoinSplit(s: string)
    ensures Join(Split(s)) == s
  {
    if s != "" {
      var rest := Split(s[1..]);
      JoinSplit(s[1..]);
      var parts := Split(s);
      if s[0] == '/' {
        assert parts[1..] == rest;
        assert s == "" + "/" + s[1..];
      } else if |rest| > 1 {
        assert parts[1..] == rest[1..];
        assert s == [s[0]] + (rest[0] + "/" + Join(rest[1..]));
      } else {
        assert s == [s[0]] + rest[0];
      }
    }
  }

  lemma {:induction false} SplitPiece(p: string)
    requires '/' !in p
    ensures Split(p) == [p]
  {
    if p != "" {
      SplitPiece(p[1..]);
      assert p == [p[0]] + p[1..];
    }
  }

  lemma {:induction false} SplitAtSlash(p: string, rest: string)
    requires '/' !in p
    ensures Split(p + "/" + rest) == [p] + Split(rest)
  {
    var s := p + "/" + rest;
    if p == "" {
      assert s[1..] == rest;
    } else {
      SplitAtSlash(p[1..], rest);
      assert s[1..] == p[1..] + "/" + rest;
      assert p == [p[0]] + p[1..];
    }
  }

  lemma {:induction false} SplitJoin(parts: seq<string>)
    requires parts != [] && Pieces(parts)
    ensures Split(Join(parts)) == parts
  {
    if |parts| == 1 {
      SplitPiece(parts[0]);
    } else {
      SplitJoin(parts[1..]);
      SplitAtSlash(parts[0], Join(parts[1..]));
    }
  }

  // ---- What is refused, and what is kept ----

  lemma {:induction false} ForwardAt(s: string)
    ensures |Forward(s)| == |s|
    ensures forall i :: 0 <= i < |s| ==> Forward(s)[i] == if s[i] == '\\' then '/' else s[i]
  {
    if s != "" {
      ForwardAt(s[1..]);
    }
  }

  /** Of the pieces, exactly the empty ones and the single dots are dropped, and the order stays. */
  lemma {:induction false} KeptConcat(a: seq<string>, b: seq<string>)
    ensures Kept(a + b) == Kept(a) + Kept(b)
    ensures |a| == 1 ==> Kept(a) == if a[0] == "" || a[0] == "." then [] else a
  {
    if a == [] {
      assert a + b == b;
    } else {
      assert (a + b)[1..] == a[1..] + b;
      KeptConcat(a[1..], b);
      if |a| == 1 {
        assert a[1..] == [] && Kept(a[1..]) == [];
      }
    }
  }

  lemma {:induction false} KeptMembers(parts: seq<string>)
    ensures forall x :: x in Kept(parts) <==> x in parts && x != "" && x != "."
  {
    if parts != [] {
      KeptMembers(parts[1..]);
      assert parts == [parts[0]] + parts[1..];
    }
  }

  lemma StripEmpty(s: string)
    ensures Strip(s) == "" <==> Strip(Forward(s)) == ""
  {
    var i, j := StripIs(s);
    var k, l := StripIs(Forward(s));
    ForwardAt(s);
    assert i < j ==> !IsSpace(Forward(s)[i]);
    assert k < l ==> !IsSpace(s[k]);
  }

  lemma KeptNone(parts: seq<string>)
    ensures Kept(parts) == [] <==> forall x :: x in parts ==> x == "" || x == "."
  {
    KeptMembers(parts);
    if Kept(parts) != [] {
      assert Kept(parts)[0] in Kept(parts);
    }
  }

  lemma KeptHasUp(parts: seq<string>)
    ensures (exists i :: 0 <= i < |Kept(parts)| && Kept(parts)[i] == "..") <==> ".." in parts
  {
    KeptMembers(parts);
    assert ".." in Kept(parts) <==> exists i :: 0 <= i < |Kept(parts)| && Kept(parts)[i] == "..";
  }

  lemma KeptHasHome(parts: seq<string>)
    ensures (exists i :: 0 <= i < |Kept(parts)| && Kept(parts)[i] != "" && Kept(parts)[i][0] == '~')
      <==> exists x :: x in parts && x != "" && x[0] == '~'
  {
    KeptMembers(parts);
    if x :| x in parts && x != "" && x[0] == '~' {
      assert x in Kept(parts);
    }
    assert forall i :: 0 <= i < |Kept(parts)| ==> Kept(parts)[i] in Kept(parts);
  }

  /** A path is refused if and only if, without outer white space and with forward slashes, it is
      absolute or drive-like, or its pieces are all empty or dots (so it may be empty), or one of them
      is ".." or begins with a tilde. */
  lemma RefusedIff(userPath: string)
    ensures var raw := Strip(Forward(userPath));
      Sanitize(userPath).Err? <==>
        || (raw != "" && raw[0] == '/') || (|raw| > 1 && raw[1] == ':')
        || (forall x :: x in Split(raw) ==> x == "" || x == ".")
        || ".." in Split(raw)
        || (exists x :: x in Split(raw) && x != "" && x[0] == '~')
  {
    var raw := Strip(Forward(userPath));
    StripEmpty(userPath);
    assert raw == "" ==> Split(raw) == [""];
    KeptNone(Split(raw));
    KeptHasUp(Split(raw));
    KeptHasHome(Split(raw));
  }

  /** An accepted path has exactly the kept pieces. */
  lemma AcceptedPieces(userPath: string)
    requires Sanitize(userPath).Ok?
    ensures Split(Sanitize(userPath).value) == Kept(Split(Strip(Forward(userPath))))
  {
    var raw := Strip(Forward(userPath));
    ForwardClean(userPath);
    StripWithin(Forward(userPath));
    SplitPieces(raw);
    KeptPieces(Split(raw));
    SplitJoin(Kept(Split(raw)));
  }

  // ---- The normal form ----

  lemma {:induction false} ForwardClean(s: string)
    ensures |Forward(s)| == |s| && '\\' !in Forward(s)
  {
    if s != "" {
      ForwardClean(s[1..]);
    }
  }

  lemma {:induction false} ForwardFixed(s: string)
    requires '\\' !in s
    ensures Forward(s) == s
  {
    if s != "" {
      ForwardFixed(s[1..]);
    }
  }

  lemma {:induction false} StripWithin(s: string)
    ensures forall c :: c in Strip(s) ==> c in s
    ensures |Strip(s)| <= |s| && (Strip(s) != s ==> |Strip(s)| < |s|)
    ensures Strip(s) == s <==> s == "" || (!IsSpace(s[0]) && !IsSpace(s[|s| - 1]))
    decreases |s|
  {
    if s != "" && IsSpace(s[0]) {
      StripWithin(s[1..]);
    } else if s != "" && IsSpace(s[|s| - 1]) {
      StripWithin(s[..|s| - 1]);
    }
  }

  lemma {:induction false} SplitPieces(s: string)
    requires '\\' !in s
    ensures Pieces(Split(s))
  {
    if s != "" {
      SplitPieces(s[1..]);
    }
  }

  lemma {:induction false} KeptPieces(parts: seq<string>)
    requires Pieces(parts)
    ensures Pieces(Kept(parts))
    ensures forall i :: 0 <= i < |Kept(parts)| ==> Kept(parts)[i] != "" && Kept(parts)[i] != "."
    ensures Kept(Kept(parts)) == Kept(parts)
  {
    if parts != [] {
      KeptPieces(parts[1..]);
      var rest := Kept(parts[1..]);
      if parts[0] == "" || parts[0] == "." {
        assert Kept(parts) == rest;
      } else {
        assert Kept(parts) == [parts[0]] + rest;
        assert ([parts[0]] + rest)[1..] == rest;
      }
    }
  }

  /** What an accepted path is made of: pieces that are neither empty, dots nor home references. */
  ghost predicate Normal(q: string) {
    var parts := Split(q);
    && Join(parts) == q && Pieces(parts)
    && forall i :: 0 <= i < |parts| ==>
         parts[i] !in {"", ".", ".."} && parts[i][0] != '~'
  }

  lemma {:induction false} JoinPieces(parts: seq<string>)
    requires parts != [] && Pieces(parts) && parts[0] != ""
    ensures '\\' !in Join(parts) && Join(parts) != "" && Join(parts)[0] == parts[0][0]
    decreases |parts|
  {
    if |parts| > 1 {
      JoinNoBackslash(parts[1..]);
    }
  }

  lemma {:induction false} JoinNoBackslash(parts: seq<string>)
    requires Pieces(parts)
    ensures '\\' !in Join(parts)
  {
    if |parts| > 1 {
      JoinNoBackslash(parts[1..]);
    }
  }

  /** Every accepted path is normal. */
  lemma SanitizeNormal(userPath: string)
    requires Sanitize(userPath).Ok?
    ensures Normal(Sanitize(userPath).value)
  {
    var raw := Strip(Forward(userPath));
    var parts := Kept(Split(raw));
    ForwardClean(userPath);
    StripWithin(Forward(userPath));
    SplitPieces(raw);
    KeptPieces(Split(raw));
    SplitJoin(parts);
  }

  lemma {:induction false} KeptAll(parts: seq<string>)
    requires forall i :: 0 <= i < |parts| ==> parts[i] != "" && parts[i] != "."
    ensures Kept(parts) == parts
  {
    if parts != [] {
      KeptAll(parts[1..]);
    }
  }

  /** What a caller can see of a normal path that will not survive a second normalisation: outer
      white space, or a colon in second place. */
  predicate Stable(q: string) {
    q != "" && !IsSpace(q[0]) && !IsSpace(q[|q| - 1]) && !DriveLike(q)
  }

  /** A normal path passes the checks unchanged unless it looks like a drive. */
  lemma NormaliseNormal(q: string)
    requires Normal(q)
    ensures q != "" && '\\' !in q
    ensures Normalise(q) == if DriveLike(q) then Err(Absolute) else Ok(q)
  {
    var parts := Split(q);
    JoinPieces(parts);
    KeptAll(parts);
    assert q[0] == parts[0][0] && q[0] in parts[0];
  }

  lemma NormalisedNoLonger(raw: string)
    requires Normalise(raw).Ok?
    ensures |Normalise(raw).value| <= |raw|
  {
    SanitizedNoLonger(raw);
  }

  /** A normal path is accepted again under its own name exactly when it is stable. */
  lemma SanitizeAgainIff(q: string)
    requires Normal(q)
    ensures Sanitize(q) == Ok(q) <==> Stable(q)
  {
    NormaliseNormal(q);
    ForwardFixed(q);
    StripWithin(q);
    if Strip(q) != q && Normalise(Strip(q)).Ok? {
      NormalisedNoLonger(Strip(q));
    }
  }

  lemma {:induction false} KeptJoinShorter(parts: seq<string>)
    requires parts != []
    ensures |Join(Kept(parts))| <= |Join(parts)|
  {
    var rest := Kept(parts[1..]);
    if |parts| > 1 {
      KeptJoinShorter(parts[1..]);
    } else {
      assert rest == [];
    }
    assert ([parts[0]] + rest)[1..] == rest;
    assert Kept(parts) == rest || Kept(parts) == [parts[0]] + rest;
  }

  /** Dropping pieces never makes a path longer. */
  lemma SanitizedNoLonger(raw: string)
    ensures |Join(Kept(Split(raw)))| <= |raw|
  {
    JoinSplit(raw);
    KeptJoinShorter(Split(raw));
  }

  /** A leading dot carries any piece through unchanged, with the space or the colon it begins with. */
  lemma DotSlashStores(t: string)
    requires Piece(t) && t !in {"", ".", ".."} && t[0] != '~' && !IsSpace(t[|t| - 1])
    ensures Sanitize("./" + t) == Ok(t)
  {
    var s := "./" + t;
    assert s[0] == '.' && s[1] == '/' && '\\' !in s;
    NormaliseDot(t);
    ForwardFixed(s);
    StripWithin(s);
  }

  lemma NormaliseDot(t: string)
    requires Piece(t) && t !in {"", ".", ".."} && t[0] != '~'
    ensures Normalise("./" + t) == Ok(t)
  {
    var s := "./" + t;
    assert s == "." + "/" + t;
    SplitPiece(t);
    SplitAtSlash(".", t);
    KeptAll([t]);
    var parts := Split(s);
    assert parts[0] == "." && parts[1..] == [t];
    assert Kept(parts) == [t];
    assert s[0] == '.' && s[1] == '/' && !DriveLike(s);
  }

  lemma NormalisePiece(a: string)
    requires Piece(a) && a !in {"", ".", ".."} && a[0] != '~' && !DriveLike(a)
    ensures Normalise(a) == Ok(a)
  {
    SplitPiece(a);
    KeptAll([a]);
    assert a[0] in a;
  }

  /** Normalising is not idempotent: a space that hides behind a dot comes to the front. */
  lemma HiddenSpace(space: char, a: string)
    requires IsSpace(space) && Piece(a) && a !in {"", ".", ".."} && Stable(a) && a[0] != '~'
    ensures Sanitize("./" + [space] + a) == Ok([space] + a)
    ensures Sanitize([space] + a) == Ok(a)
  {
    var t := [space] + a;
    assert t[0] == space && Piece(t);
    assert "./" + [space] + a == "./" + t;
    DotSlashStores(t);
    ForwardFixed(t);
    StripWithin(a);
    assert t[1..] == a;
    NormalisePiece(a);
  }
}
