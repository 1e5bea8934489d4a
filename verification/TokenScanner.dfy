/**
 A one-pass scanner over text made of token runs and stretches between them:
 runs that look secret are replaced by a mark and every other byte is copied.
 What a token byte is, what looks secret and the mark are parameters.
 */
module TokenScanner {
  import opened Wrappers
  import opened Utf8

  type ByteClass = Byte -> bool
  type Shape = Bytes -> bool

  // ---------------------------------------------------------- specification

  /** How many bytes at the front of `s` are, or are not, token bytes. */
  function RunLen(token: ByteClass, s: Bytes, yes: bool): (n: nat)
    ensures n <= |s| && (forall k :: 0 <= k < n ==> token(s[k]) == yes)
    ensures n < |s| ==> token(s[n]) != yes
  {
    if s == [] || token(s[0]) != yes then 0 else 1 + RunLen(token, s[1..], yes)
  }

  /** Length of the first piece of `s`: a token run, or a stretch without token bytes. */
  function FirstLen(token: ByteClass, s: Bytes): (n: nat)
    requires s != []
    ensures 0 < n <= |s| && (forall k :: 0 <= k < n ==> token(s[k]) == token(s[0]))
    ensures n < |s| ==> token(s[n]) != token(s[0])
  {
    RunLen(token, s, token(s[0]))
  }

  function Replace(token: ByteClass, secret: Shape, mark: Bytes, piece: Bytes): Bytes {
    if piece != [] && token(piece[0]) && secret(piece) then mark else piece
  }

  /** Secret runs replaced, everything else kept, in order. */
  function Scrubbed(token: ByteClass, secret: Shape, mark: Bytes, s: Bytes): Bytes
    decreases |s|
  {
    if s == [] then [] else
      var n := FirstLen(token, s);
      Replace(token, secret, mark, s[..n]) + Scrubbed(token, secret, mark, s[n..])
  }

  /** A byte outside any token is copied. */
  lemma ScrubbedPlain(token: ByteClass, secret: Shape, mark: Bytes, s: Bytes)
    requires s != [] && !token(s[0])
    ensures Scrubbed(token, secret, mark, s) == [s[0]] + Scrubbed(token, secret, mark, s[1..])
  {
    var n := FirstLen(token, s);
    var rest := Scrubbed(token, secret, mark, s[n..]);
    assert Scrubbed(token, secret, mark, s) == s[..n] + rest;
    if n > 1 {
      var u := s[1..];
      assert FirstLen(token, u) == n - 1;
      assert u[..n - 1] == s[1..n] && u[n - 1..] == s[n..];
      assert Scrubbed(token, secret, mark, u) == s[1..n] + rest;
      assert s[..n] + rest == [s[0]] + (s[1..n] + rest);
    } else {
      assert s[..1] == [s[0]];
    }
  }

  // ---------------------------------------------------------------- scanner

  /** The end of the token run that starts at `start`. */
  method SkipRun(token: ByteClass, text: Bytes, start: nat) returns (i: nat)
    requires start < |text| && token(text[start])
    ensures start < i <= |text| && i - start == FirstLen(token, text[start..])
  {
    i := start;
    ghost var n := FirstLen(token, text[start..]);
    while i < |text| && token(text[i])
      invariant start <= i <= start + n
    {
      assert text[start..][i - start] == text[i];
      i := i + 1;
    }
    assert i < |text| ==> text[start..][i - start] == text[i];
  }

  /** What the scanner will have emitted in the end, given what it has emitted so far. */
  ghost function Final(token: ByteClass, secret: Shape, mark: Bytes, text: Bytes, out: Bytes, plainStart: nat, i: nat): Bytes
    requires plainStart <= i <= |text|
  {
    out + text[plainStart..i] + Scrubbed(token, secret, mark, text[i..])
  }

  /** The first run of `text[start..]`, kept or replaced. */
  lemma ScrubbedRun(token: ByteClass, secret: Shape, mark: Bytes, text: Bytes, start: nat, i: nat)
    requires start < i <= |text| && token(text[start]) && i - start == FirstLen(token, text[start..])
    ensures Scrubbed(token, secret, mark, text[start..])
         == (if secret(text[start..i]) then mark else text[start..i]) + Scrubbed(token, secret, mark, text[i..])
  {
    var u := text[start..];
    assert u[..i - start] == text[start..i] && u[i - start..] == text[i..];
  }

  lemma Regroup(a: Bytes, b: Bytes, c: Bytes, d: Bytes)
    ensures a + b + (c + d) == a + (b + c) + d
  {}

  lemma RegroupEmpty(a: Bytes, b: Bytes, c: Bytes, e: Bytes, d: Bytes)
    requires e == []
    ensures a + b + (c + d) == a + b + c + e + d
  {}

  lemma EmitRun(token: ByteClass, secret: Shape, mark: Bytes, text: Bytes, out: Bytes, plainStart: nat, start: nat, i: nat)
    requires plainStart <= start < i <= |text| && token(text[start]) && i - start == FirstLen(token, text[start..])
    ensures Final(token, secret, mark, text, out, plainStart, start)
         == (if secret(text[start..i]) then Final(token, secret, mark, text, out + text[plainStart..start] + mark, i, i)
             else Final(token, secret, mark, text, out, plainStart, i))
  {
    ScrubbedRun(token, secret, mark, text, start, i);
    if secret(text[start..i]) {
      RegroupEmpty(out, text[plainStart..start], mark, text[i..i], Scrubbed(token, secret, mark, text[i..]));
    } else {
      SlicesJoin(text, plainStart, start, i);
      Regroup(out, text[plainStart..start], text[start..i], Scrubbed(token, secret, mark, text[i..]));
    }
  }

  lemma EmitPlain(token: ByteClass, secret: Shape, mark: Bytes, text: Bytes, out: Bytes, plainStart: nat, i: nat)
    requires plainStart <= i < |text| && !token(text[i])
    ensures Final(token, secret, mark, text, out, plainStart, i) == Final(token, secret, mark, text, out, plainStart, i + 1)
  {
    var u := text[i..];
    ScrubbedPlain(token, secret, mark, u);
    assert u[1..] == text[i + 1..];
    Regroup(out, text[plainStart..i], [text[i]], Scrubbed(token, secret, mark, text[i + 1..]));
    assert text[plainStart..i + 1] == text[plainStart..i] + [text[i]];
  }

  lemma FinalEnds(token: ByteClass, secret: Shape, mark: Bytes, text: Bytes, out: Bytes, plainStart: nat)
    requires plainStart <= |text|
    ensures Final(token, secret, mark, text, [], 0, 0) == Scrubbed(token, secret, mark, text)
    ensures Final(token, secret, mark, text, out, plainStart, |text|) == out + text[plainStart..]
  {
    assert text[0..] == text;
  }

  method Scan(token: ByteClass, secret: Shape, mark: Bytes, text: Bytes) returns (out: Bytes)
    ensures out == Scrubbed(token, secret, mark, text)
  {
    out := [];
    var i, plainStart := 0, 0;
    while i < |text|
      invariant plainStart <= i <= |text|
      invariant Final(token, secret, mark, text, out, plainStart, i) == Final(token, secret, mark, text, [], 0, 0)
    {
      if token(text[i]) {
        var start := i;
        i := SkipRun(token, text, start);
        EmitRun(token, secret, mark, text, out, plainStart, start, i);
        if secret(text[start..i]) {
          out := out + text[plainStart..start];
          out := out + mark;
          plainStart := i;
        }
      } else {
        EmitPlain(token, secret, mark, text, out, plainStart, i);
        i := i + 1;
      }
    }
    FinalEnds(token, secret, mark, text, out, plainStart);
    out := out + text[plainStart..];
  }

  // -------------------------------------------------- what the split means

  /** `s[i..j]` is a token run that cannot be extended either way. */
  ghost predicate MaximalRun(token: ByteClass, s: Bytes, i: int, j: int) {
    && 0 <= i < j <= |s| && (forall k :: i <= k < j ==> token(s[k]))
    && (i == 0 || !token(s[i - 1])) && (j == |s| || !token(s[j]))
  }

  /** Runs do not cross a seam next to a byte outside any token. */
  ghost predicate Seam(token: ByteClass, x: Bytes, y: Bytes) {
    x == [] || y == [] || !token(x[|x| - 1]) || !token(y[0])
  }

  lemma RunsBelowSeam(token: ByteClass, x: Bytes, y: Bytes, i: int, j: int)
    requires Seam(token, x, y) && j <= |x|
    ensures MaximalRun(token, x + y, i, j) <==> MaximalRun(token, x, i, j)
  {
    var s := x + y;
    if MaximalRun(token, s, i, j) {
      forall k | i <= k < j ensures token(x[k]) {
        assert x[k] == s[k];
      }
    }
    if MaximalRun(token, x, i, j) {
      forall k | i <= k < j ensures token(s[k]) {
        assert x[k] == s[k];
      }
      assert token(x[j - 1]);
    }
  }

  lemma RunsAboveSeam(token: ByteClass, x: Bytes, y: Bytes, i: int, j: int)
    requires Seam(token, x, y) && 0 <= i
    ensures MaximalRun(token, x + y, i + |x|, j + |x|) <==> MaximalRun(token, y, i, j)
  {
    var s := x + y;
    if MaximalRun(token, s, i + |x|, j + |x|) {
      forall k | i <= k < j ensures token(y[k]) {
        assert y[k] == s[k + |x|];
      }
    }
    if MaximalRun(token, y, i, j) {
      forall k | i + |x| <= k < j + |x| ensures token(s[k]) {
        assert s[k] == y[k - |x|];
      }
    }
  }

  lemma RunsAvoidSeam(token: ByteClass, x: Bytes, y: Bytes, i: int, j: int)
    requires Seam(token, x, y) && MaximalRun(token, x + y, i, j)
    ensures j <= |x| || i >= |x|
  {
    assert x != [] ==> (x + y)[|x| - 1] == x[|x| - 1];
    assert y != [] ==> (x + y)[|x|] == y[0];
  }

  /** Cuts text into its maximal token runs and the stretches between them. */
  function Split(token: ByteClass, s: Bytes): seq<Bytes>
    decreases |s|
  {
    if s == [] then [] else [s[..FirstLen(token, s)]] + Split(token, s[FirstLen(token, s)..])
  }

  function Join(pieces: seq<Bytes>): Bytes {
    if pieces == [] then [] else pieces[0] + Join(pieces[1..])
  }

  function ReplaceAll(token: ByteClass, secret: Shape, mark: Bytes, pieces: seq<Bytes>): seq<Bytes> {
    if pieces == [] then [] else [Replace(token, secret, mark, pieces[0])] + ReplaceAll(token, secret, mark, pieces[1..])
  }

  ghost predicate PieceOk(token: ByteClass, piece: Bytes) {
    piece != [] && forall k :: 0 <= k < |piece| ==> token(piece[k]) == token(piece[0])
  }

  ghost predicate Neighbours(token: ByteClass, x: Bytes, y: Bytes) {
    x != [] && y != [] && token(x[0]) != token(y[0])
  }

  lemma JoinAt(x: Bytes, pieces: seq<Bytes>)
    ensures Join([x] + pieces) == x + Join(pieces)
  {
    assert ([x] + pieces)[1..] == pieces;
  }

  lemma ReplaceAllAt(token: ByteClass, secret: Shape, mark: Bytes, x: Bytes, pieces: seq<Bytes>)
    ensures ReplaceAll(token, secret, mark, [x] + pieces)
         == [Replace(token, secret, mark, x)] + ReplaceAll(token, secret, mark, pieces)
  {
    assert ([x] + pieces)[1..] == pieces;
  }

  /** The pieces, in order, are the text. */
  lemma {:induction false} SplitLosesNothing(token: ByteClass, s: Bytes)
    ensures Join(Split(token, s)) == s
    decreases |s|
  {
    if s != [] {
      var n := FirstLen(token, s);
      var x, y := s[..n], s[n..];
      var rest := Split(token, y);
      SplitLosesNothing(token, y);
      JoinAt(x, rest);
      assert Split(token, s) == [x] + rest;
      assert s == x + y;
    }
  }

  /** Each piece is all token bytes or free of them, and neighbours alternate: no run is cut short. */
  lemma {:induction false} PiecesAlternate(token: ByteClass, s: Bytes, k: nat)
    requires k < |Split(token, s)|
    ensures PieceOk(token, Split(token, s)[k])
    ensures k == 0 ==> Split(token, s)[k][0] == s[0]
    ensures k > 0 ==> Neighbours(token, Split(token, s)[k - 1], Split(token, s)[k])
    decreases |s|
  {
    var n := FirstLen(token, s);
    if k > 0 {
      PiecesAlternate(token, s[n..], k - 1);
      assert Split(token, s)[k] == Split(token, s[n..])[k - 1];
      if k > 1 {
        assert Split(token, s)[k - 1] == Split(token, s[n..])[k - 2];
      }
    }
  }

  /** Scrubbing is: split, replace exactly the secret-looking runs, concatenate. */
  lemma {:induction false} ScrubbedIsPiecewise(token: ByteClass, secret: Shape, mark: Bytes, s: Bytes)
    ensures Scrubbed(token, secret, mark, s) == Join(ReplaceAll(token, secret, mark, Split(token, s)))
    decreases |s|
  {
    if s != [] {
      var n := FirstLen(token, s);
      var rest := Split(token, s[n..]);
      ScrubbedIsPiecewise(token, secret, mark, s[n..]);
      ReplaceAllAt(token, secret, mark, s[..n], rest);
      JoinAt(Replace(token, secret, mark, s[..n]), ReplaceAll(token, secret, mark, rest));
    }
  }

  lemma LaterPiece(token: ByteClass, s: Bytes, piece: Bytes)
    requires s != [] && piece in Split(token, s[FirstLen(token, s)..])
    ensures piece in Split(token, s)
  {}

  /** Every maximal run of the text is a piece of its split. */
  lemma {:induction false} RunsArePieces(token: ByteClass, s: Bytes, i: int, j: int)
    requires MaximalRun(token, s, i, j)
    ensures s[i..j] in Split(token, s)
    decreases |s|
  {
    var n := FirstLen(token, s);
    RunSide(token, s, n, i, j);
    if i >= n {
      LaterRun(token, s, n, i, j);
      RunsArePieces(token, s[n..], i - n, j - n);
      LaterPiece(token, s, s[i..j]);
    } else {
      FirstRun(token, s, i, j);
      FirstPiece(token, s);
    }
  }

  lemma RunSide(token: ByteClass, s: Bytes, n: int, i: int, j: int)
    requires 0 <= n <= |s| && MaximalRun(token, s, i, j) && Seam(token, s[..n], s[n..])
    ensures j <= n || i >= n
  {
    assert s == s[..n] + s[n..];
    RunsAvoidSeam(token, s[..n], s[n..], i, j);
  }

  lemma LaterRun(token: ByteClass, s: Bytes, n: int, i: int, j: int)
    requires 0 <= n <= i && MaximalRun(token, s, i, j) && Seam(token, s[..n], s[n..])
    ensures MaximalRun(token, s[n..], i - n, j - n) && s[n..][i - n..j - n] == s[i..j]
  {
    CutAt(s, n);
    RunsAboveSeam(token, s[..n], s[n..], i - n, j - n);
    SliceOfTail(s, n, i, j);
  }

  lemma CutAt(s: Bytes, n: int)
    requires 0 <= n <= |s|
    ensures s[..n] + s[n..] == s && |s[..n]| == n
  {}

  lemma SliceOfTail(s: Bytes, n: int, i: int, j: int)
    requires 0 <= n <= i <= j <= |s|
    ensures s[n..][i - n..j - n] == s[i..j]
  {}

  lemma FirstPiece(token: ByteClass, s: Bytes)
    requires s != []
    ensures s[0..FirstLen(token, s)] in Split(token, s)
  {
    assert Split(token, s)[0] == s[0..FirstLen(token, s)];
  }

  lemma FirstRun(token: ByteClass, s: Bytes, i: int, j: int)
    requires MaximalRun(token, s, i, j) && i < FirstLen(token, s)
    ensures i == 0 && j == FirstLen(token, s)
  {
    assert token(s[i]);
  }

  // ------------------------------------------------------------- guarantees

  ghost predicate NoSecretRun(token: ByteClass, secret: Shape, s: Bytes) {
    forall i, j :: MaximalRun(token, s, i, j) ==> !secret(s[i..j])
  }

  lemma CleanBySeam(token: ByteClass, secret: Shape, x: Bytes, y: Bytes)
    requires Seam(token, x, y) && NoSecretRun(token, secret, x) && NoSecretRun(token, secret, y)
    ensures NoSecretRun(token, secret, x + y)
  {
    var s := x + y;
    forall i, j | MaximalRun(token, s, i, j) ensures !secret(s[i..j]) {
      RunsAvoidSeam(token, x, y, i, j);
      if j <= |x| {
        RunsBelowSeam(token, x, y, i, j);
        assert s[i..j] == x[i..j];
      } else {
        RunsAboveSeam(token, x, y, i - |x|, j - |x|);
        assert s[i..j] == y[i - |x|..j - |x|];
      }
    }
  }

  lemma SidesAreClean(token: ByteClass, secret: Shape, x: Bytes, y: Bytes)
    requires Seam(token, x, y) && NoSecretRun(token, secret, x + y)
    ensures NoSecretRun(token, secret, x) && NoSecretRun(token, secret, y)
  {
    var s := x + y;
    forall i, j | MaximalRun(token, x, i, j) ensures !secret(x[i..j]) {
      RunsBelowSeam(token, x, y, i, j);
      SliceBelow(x, y, i, j);
    }
    forall i, j | MaximalRun(token, y, i, j) ensures !secret(y[i..j]) {
      RunsAboveSeam(token, x, y, i, j);
      SliceAbove(x, y, i, j);
    }
  }

  /** A mark fenced by bytes no token holds, and itself free of secret runs. */
  ghost predicate GoodMark(token: ByteClass, secret: Shape, mark: Bytes) {
    mark != [] && !token(mark[0]) && !token(mark[|mark| - 1]) && NoSecretRun(token, secret, mark)
  }

  lemma WholePiece(token: ByteClass, x: Bytes, i: int, j: int)
    requires PieceOk(token, x) && MaximalRun(token, x, i, j)
    ensures i == 0 && j == |x|
  {
    assert token(x[i]);
    assert forall k :: 0 <= k < |x| ==> token(x[k]);
  }

  lemma PieceIsClean(token: ByteClass, secret: Shape, mark: Bytes, x: Bytes)
    requires GoodMark(token, secret, mark) && PieceOk(token, x)
    ensures NoSecretRun(token, secret, Replace(token, secret, mark, x))
  {
    if !(token(x[0]) && secret(x)) {
      forall i, j | MaximalRun(token, x, i, j) ensures !secret(x[i..j]) {
        WholePiece(token, x, i, j);
        assert x[i..j] == x;
      }
    }
  }

  /** Scrubbed text starts with a token byte only if the text did. */
  lemma FirstByte(token: ByteClass, secret: Shape, mark: Bytes, s: Bytes)
    requires s == [] || !token(s[0])
    ensures Scrubbed(token, secret, mark, s) == [] || !token(Scrubbed(token, secret, mark, s)[0])
  {
    if s != [] {
      ScrubbedPlain(token, secret, mark, s);
    }
  }

  /** Scrubbed text holds no secret-looking run. */
  lemma {:induction false} OutputHasNoSecret(token: ByteClass, secret: Shape, mark: Bytes, s: Bytes)
    requires GoodMark(token, secret, mark)
    ensures NoSecretRun(token, secret, Scrubbed(token, secret, mark, s))
    decreases |s|
  {
    if s != [] {
      var n := FirstLen(token, s);
      var x, y := s[..n], s[n..];
      OutputHasNoSecret(token, secret, mark, y);
      PieceIsClean(token, secret, mark, x);
      if token(s[0]) {
        FirstByte(token, secret, mark, y);
      } else {
        assert !token(x[n - 1]);
      }
      CleanBySeam(token, secret, Replace(token, secret, mark, x), Scrubbed(token, secret, mark, y));
    }
  }

  /** Text without a secret run is left alone. */
  lemma {:induction false} CleanTextIsKept(token: ByteClass, secret: Shape, mark: Bytes, s: Bytes)
    requires NoSecretRun(token, secret, s)
    ensures Scrubbed(token, secret, mark, s) == s
    decreases |s|
  {
    if s != [] {
      var n := FirstLen(token, s);
      var x, y := s[..n], s[n..];
      assert s == x + y;
      SidesAreClean(token, secret, x, y);
      CleanTextIsKept(token, secret, mark, y);
      if token(s[0]) {
        assert MaximalRun(token, x, 0, n) && x[0..n] == x;
      }
    }
  }

  /** With ASCII tokens every slice falls on a character boundary: valid UTF-8 stays valid. */
  lemma {:induction false} KeepsUtf8(token: ByteClass, secret: Shape, mark: Bytes, s: Bytes)
    requires Valid(s) && (forall b :: token(b) ==> b <= 0x7F) && forall k :: 0 <= k < |mark| ==> mark[k] <= 0x7F
    ensures Valid(Scrubbed(token, secret, mark, s))
    decreases |s|
  {
    if s != [] {
      var n := FirstLen(token, s);
      var x, y := s[..n], s[n..];
      assert s == x + y;
      if token(s[0]) {
        ValidAfterAscii(x, y);
        AsciiIsValid(x);
        AsciiIsValid(mark);
      } else {
        ValidCut(x, y);
      }
      KeepsUtf8(token, secret, mark, y);
      ValidConcat(Replace(token, secret, mark, x), Scrubbed(token, secret, mark, y));
    }
  }
}
