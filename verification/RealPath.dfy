/**
 * wolfSSH_RealPath: the in-place canonicaliser of SFTP and SCP paths, against the
 * fold of a path's segments over a stack.
 */
module RealPath {

  import opened Bytes

  datatype Ret = Success | BadArgument | InvalidPath

  predicate IsDelim(c: char) {
    c == '/' || c == '\\'
  }

  /** The length of the token a string starts with. */
  function TokenSz(s: string): (n: nat)
    ensures n <= |s| && (forall k :: 0 <= k < n ==> !IsDelim(s[k])) && (n < |s| ==> IsDelim(s[n]))
  {
    if s == [] || IsDelim(s[0]) then 0 else 1 + TokenSz(s[1..])
  }

  /** The tokens strtok finds. */
  function Segments(s: string): seq<string> {
    if s == [] then []
    else if IsDelim(s[0]) then Segments(s[1..])
    else [s[..TokenSz(s)]] + Segments(s[TokenSz(s)..])
  }

  /** One segment on a stack: "." stays, ".." pops what there is, others push. */
  function Step(stack: seq<string>, seg: string): seq<string> {
    if seg == "." then stack
    else if seg == ".." then (if stack == [] then [] else stack[..|stack| - 1])
    else stack + [seg]
  }

  function Resolve(stack: seq<string>, segs: seq<string>): seq<string>
    decreases |segs|
  {
    if segs == [] then stack else Resolve(Step(stack, segs[0]), segs[1..])
  }

  function Slashed(stack: seq<string>): string {
    if stack == [] then [] else Slashed(stack[..|stack| - 1]) + "/" + stack[|stack| - 1]
  }

  /** A stack as an absolute path. */
  function Render(stack: seq<string>): string {
    if stack == [] then "/" else Slashed(stack)
  }

  predicate IsToken(seg: string) {
    seg != "" && forall c <- seg :: !IsDelim(c)
  }

  predicate Clean(seg: string) {
    IsToken(seg) && seg != "." && seg != ".."
  }

  predicate AllClean(segs: seq<string>) {
    forall seg <- segs :: Clean(seg)
  }

  predicate Canonical(path: string) {
    AllClean(Segments(path)) && path == Render(Segments(path))
  }

  predicate IsRelative(path: string) {
    path == "" || (!IsDelim(path[0]) && !(|path| > 1 && path[1] == ':'))
  }

  /** Where resolving starts from. */
  function Base(defaultPath: Option<string>, path: string): seq<string> {
    if IsRelative(path) && defaultPath.Some? then Segments(defaultPath.value) else []
  }

  /** What wolfSSH_RealPath is to compute. */
  function Real(defaultPath: Option<string>, path: string): string {
    Render(Resolve(Base(defaultPath, path), Segments(path)))
  }

  /** The default path where it is used, and every path on the way, fits. */
  ghost predicate Fits(defaultPath: Option<string>, path: string, outSz: nat) {
    AllFit(Base(defaultPath, path), Segments(path), outSz)
  }

  ghost predicate AllFit(stack: seq<string>, segs: seq<string>, outSz: nat) {
    forall k :: 0 <= k <= |segs| ==> |Render(Resolve(stack, segs[..k]))| < outSz
  }

  // ---------------------------------------------------------- the fold

  lemma {:induction false} ResolveAppends(stack: seq<string>, a: seq<string>, b: seq<string>)
    ensures Resolve(stack, a + b) == Resolve(Resolve(stack, a), b)
    decreases |a|
  {
    if a == [] {
      assert a + b == b;
    } else {
      assert (a + b)[0] == a[0] && (a + b)[1..] == a[1..] + b;
      ResolveAppends(Step(stack, a[0]), a[1..], b);
    }
  }

  /** The result has no empty, "." or ".." segment, and no delimiter in one. */
  lemma {:induction false} ResolveStaysClean(stack: seq<string>, segs: seq<string>)
    requires AllClean(stack)
    requires forall seg <- segs :: IsToken(seg)
    ensures AllClean(Resolve(stack, segs))
    decreases |segs|
  {
    if segs != [] {
      ResolveStaysClean(Step(stack, segs[0]), segs[1..]);
    }
  }

  /** Clean segments are all pushed. */
  lemma {:induction false} ResolveKeepsClean(stack: seq<string>, segs: seq<string>)
    requires AllClean(segs)
    ensures Resolve(stack, segs) == stack + segs
    decreases |segs|
  {
    if segs == [] {
      assert stack + segs == stack;
    } else {
      ResolveKeepsClean(stack + [segs[0]], segs[1..]);
      assert segs[0] in segs && stack + [segs[0]] + segs[1..] == stack + segs;
    }
  }

  // ---------------------------------------------------------- the tokens

  lemma {:induction false} SegmentsAreTokens(s: string)
    ensures forall seg <- Segments(s) :: IsToken(seg)
    decreases |s|
  {
    if s != [] {
      if IsDelim(s[0]) {
        SegmentsAreTokens(s[1..]);
      } else {
        SegmentsAreTokens(s[TokenSz(s)..]);
      }
    }
  }

  lemma {:induction false} TokenSzWithin(a: string, b: string)
    requires forall c <- a :: !IsDelim(c)
    requires b == "" || IsDelim(b[0])
    ensures TokenSz(a + b) == |a|
    decreases |a|
  {
    if a == [] {
      assert a + b == b;
    } else {
      assert (a + b)[1..] == a[1..] + b;
      TokenSzWithin(a[1..], b);
    }
  }

  /** A token, and what a delimiter separates from it. */
  lemma SegmentsFront(a: string, b: string)
    requires IsToken(a) && (b == "" || IsDelim(b[0]))
    ensures Segments(a + b) == [a] + Segments(b)
  {
    TokenSzWithin(a, b);
    assert (a + b)[..|a|] == a && (a + b)[|a|..] == b;
  }

  lemma SegmentsPastDelim(d: char, s: string)
    requires IsDelim(d)
    ensures Segments([d] + s) == Segments(s)
  {
    assert ([d] + s)[1..] == s;
  }

  /** A delimiter separates: the tokens are those of both sides. */
  lemma {:induction false} SegmentsSplit(a: string, d: char, b: string)
    requires IsDelim(d)
    ensures Segments(a + [d] + b) == Segments(a) + Segments(b)
    decreases |a|
  {
    SegmentsOfNothing(a);
    assert a[|a|..] == "";
    hide Segments;
    var all := a + [d] + b;
    if a == "" {
      assert all == [d] + b;
      SegmentsPastDelim(d, b);
    } else if IsDelim(a[0]) {
      assert all == [a[0]] + (a[1..] + [d] + b) && a == [a[0]] + a[1..];
      SegmentsPastDelim(a[0], a[1..] + [d] + b);
      SegmentsPastDelim(a[0], a[1..]);
      SegmentsSplit(a[1..], d, b);
    } else {
      var n := TokenSz(a);
      assert all == a[..n] + (a[n..] + [d] + b) && a == a[..n] + a[n..];
      SegmentsFront(a[..n], a[n..] + [d] + b);
      SegmentsFront(a[..n], a[n..]);
      SegmentsSplit(a[n..], d, b);
      Assoc([a[..n]], Segments(a[n..]), Segments(b));
    }
  }

  /** Reading a rendered stack back gives the stack. */
  lemma {:induction false} SegmentsOfSlashed(stack: seq<string>)
    requires AllClean(stack)
    ensures Segments(Slashed(stack)) == stack
    decreases |stack|
  {
    if stack != [] {
      var n := |stack| - 1;
      SegmentsOfSlashed(stack[..n]);
      assert Slashed(stack) == Slashed(stack[..n]) + ['/'] + stack[n];
      SegmentsSplit(Slashed(stack[..n]), '/', stack[n]);
      assert stack[n] in stack && stack[n] + [] == stack[n];
      SegmentsFront(stack[n], "");
      assert stack == stack[..n] + [stack[n]];
    }
  }

  lemma RenderRoundTrip(stack: seq<string>)
    requires AllClean(stack)
    ensures Segments(Render(stack)) == stack && Canonical(Render(stack))
    ensures Render(stack)[0] == '/'
  {
    SegmentsOfSlashed(stack);
    SlashedStarts(stack);
  }

  lemma {:induction false} SlashedStarts(stack: seq<string>)
    ensures stack != [] ==> |Slashed(stack)| > 0 && Slashed(stack)[0] == '/'
    decreases |stack|
  {
    if stack != [] {
      SlashedStarts(stack[..|stack| - 1]);
    }
  }

  // ---------------------------------------------------- what it promises

  /** Every result is canonical. */
  lemma RealIsCanonical(defaultPath: Option<string>, path: string)
    requires defaultPath.Some? ==> Canonical(defaultPath.value)
    ensures Canonical(Real(defaultPath, path))
    ensures Segments(Real(defaultPath, path)) == Resolve(Base(defaultPath, path), Segments(path))
  {
    SegmentsAreTokens(path);
    ResolveStaysClean(Base(defaultPath, path), Segments(path));
    RenderRoundTrip(Resolve(Base(defaultPath, path), Segments(path)));
  }

  /** Resolving again changes nothing, whatever the default path. */
  lemma RealIsIdempotent(defaultPath: Option<string>, other: Option<string>, path: string, outSz: nat)
    requires defaultPath.Some? ==> Canonical(defaultPath.value)
    ensures Real(other, Real(defaultPath, path)) == Real(defaultPath, path)
    ensures Fits(other, Real(defaultPath, path), outSz) <==> |Real(defaultPath, path)| < outSz
  {
    RealIsCanonical(defaultPath, path);
    var stack := Resolve(Base(defaultPath, path), Segments(path));
    RenderRoundTrip(stack);
    assert Base(other, Render(stack)) == [];
    ResolveKeepsClean([], stack);
    assert [] + stack == stack;
    forall k | 0 <= k <= |stack|
      ensures |Render(Resolve([], stack[..k]))| <= |Render(stack)|
    {
      ResolveKeepsClean([], stack[..k]);
      assert [] + stack[..k] == stack[..k];
      SlashedShorter(stack, k);
      SlashedStarts(stack);
    }
    assert stack[..|stack|] == stack;
  }

  lemma {:induction false} SlashedShorter(stack: seq<string>, k: nat)
    requires k <= |stack|
    ensures |Slashed(stack[..k])| <= |Slashed(stack)|
    decreases |stack|
  {
    if k < |stack| {
      SlashedShorter(stack[..|stack| - 1], k);
      assert stack[..|stack| - 1][..k] == stack[..k];
    } else {
      assert stack[..k] == stack;
    }
  }

  lemma JoinedBase(defaultPath: Option<string>, x: string, y: string)
    requires x != ""
    ensures Base(defaultPath, x + "/" + y) == Base(defaultPath, x)
  {
    var xy := x + "/" + y;
    assert xy[0] == x[0] && (|x| > 1 ==> xy[1] == x[1]) && (|x| == 1 ==> xy[1] == '/');
  }

  /** Resolving x and then a relative y from there is resolving x/y, and both
      succeed in the same room. */
  lemma RealJoins(defaultPath: Option<string>, x: string, y: string, outSz: nat)
    requires defaultPath.Some? ==> Canonical(defaultPath.value)
    requires x != "" && IsRelative(y)
    ensures Real(Some(Real(defaultPath, x)), y) == Real(defaultPath, x + "/" + y)
    ensures Fits(defaultPath, x + "/" + y, outSz) <==>
            Fits(defaultPath, x, outSz) && Fits(Some(Real(defaultPath, x)), y, outSz)
  {
    RealIsCanonical(defaultPath, x);
    JoinedBase(defaultPath, x, y);
    SegmentsSplit(x, '/', y);
    assert x + ['/'] + y == x + "/" + y;
    ResolveAppends(Base(defaultPath, x), Segments(x), Segments(y));
    AllFitAppends(Base(defaultPath, x), Segments(x), Segments(y), outSz);
  }

  /** The stack before and after one more segment. */
  lemma OneMoreSegment(defaultPath: Option<string>, x: string, seg: string)
    requires defaultPath.Some? ==> Canonical(defaultPath.value)
    requires x != "" && IsToken(seg)
    ensures var was := Resolve(Base(defaultPath, x), Segments(x));
            Segments(Real(defaultPath, x)) == was && Segments(Real(defaultPath, x + "/" + seg)) == Step(was, seg)
  {
    hide Real, Canonical, Base, Resolve, Segments, IsToken, Step;
    RealIsCanonical(defaultPath, x);
    RealIsCanonical(defaultPath, x + "/" + seg);
    JoinedBase(defaultPath, x, seg);
    SegmentsSplit(x, '/', seg);
    assert x + ['/'] + seg == x + "/" + seg;
    TokenSegments(seg);
    ResolveAppends(Base(defaultPath, x), Segments(x), [seg]);
    ResolveOne(Resolve(Base(defaultPath, x), Segments(x)), seg);
  }

  lemma TokenSegments(seg: string)
    requires IsToken(seg)
    ensures Segments(seg) == [seg]
  {
    RootSegments();
    assert seg + "" == seg;
    SegmentsFront(seg, "");
  }

  lemma ResolveOne(stack: seq<string>, seg: string)
    ensures Resolve(stack, [seg]) == Step(stack, seg)
  {
    assert [seg][1..] == [];
  }

  /** A name goes below what comes before it, ".." takes away the last name there is,
      and "." nothing. */
  lemma RealSegments(defaultPath: Option<string>, x: string, seg: string)
    requires defaultPath.Some? ==> Canonical(defaultPath.value)
    requires x != "" && Clean(seg)
    ensures var was := Segments(Real(defaultPath, x));
            && Segments(Real(defaultPath, x + "/" + seg)) == was + [seg]
            && Segments(Real(defaultPath, x + "/..")) == (if was == [] then [] else was[..|was| - 1])
            && Real(defaultPath, x + "/.") == Real(defaultPath, x)
  {
    assert x + "/" + ".." == x + "/.." && x + "/" + "." == x + "/.";
    OneMoreSegment(defaultPath, x, seg);
    OneMoreSegment(defaultPath, x, "..");
    OneMoreSegment(defaultPath, x, ".");
    SameSegments(defaultPath, x + "/.", x);
  }

  /** ".." undoes a name. */
  lemma RealUpUndoesName(defaultPath: Option<string>, x: string, seg: string)
    requires defaultPath.Some? ==> Canonical(defaultPath.value)
    requires x != "" && Clean(seg)
    ensures Real(defaultPath, x + "/" + seg + "/..") == Real(defaultPath, x)
  {
    RealSegments(defaultPath, x, seg);
    RealSegments(defaultPath, x + "/" + seg, seg);
    SameSegments(defaultPath, x + "/" + seg + "/..", x);
  }

  lemma SameSegments(defaultPath: Option<string>, a: string, b: string)
    requires defaultPath.Some? ==> Canonical(defaultPath.value)
    requires Segments(Real(defaultPath, a)) == Segments(Real(defaultPath, b))
    ensures Real(defaultPath, a) == Real(defaultPath, b)
  {
    RealIsCanonical(defaultPath, a);
    RealIsCanonical(defaultPath, b);
  }

  /** Where resolving begins: nothing at all is the default, an absolute path or one
      with a drive forgets it, and there is nothing above the root. */
  lemma RealBegins(defaultPath: Option<string>, x: string)
    requires defaultPath.Some? ==> Canonical(defaultPath.value)
    ensures Real(defaultPath, "") == if defaultPath.Some? then defaultPath.value else "/"
    ensures Real(defaultPath, "/" + x) == Real(None, "/" + x)
    ensures |x| > 1 && x[1] == ':' ==> Real(defaultPath, x) == Real(None, x)
    ensures Real(defaultPath, "/") == "/" && Real(defaultPath, "/..") == "/"
  {
    RootSegments();
    ResolveOne([], "..");
    hide Segments;
  }

  /** A name without a drive goes below the default. */
  lemma RealBelowDefault(p: string, seg: string)
    requires Canonical(p) && Clean(seg) && (|seg| == 1 || seg[1] != ':')
    ensures Segments(Real(Some(p), seg)) == Segments(p) + [seg]
  {
    hide Real, Resolve, Segments, Canonical;
    assert seg[0] in seg;
    assert Base(Some(p), seg) == Segments(p);
    RealIsCanonical(Some(p), seg);
    TokenSegments(seg);
    ResolveOne(Segments(p), seg);
  }

  lemma RootSegments()
    ensures Segments("") == Segments("/") == [] && Segments("/..") == [".."]
  {
    assert "/"[1..] == "" && "/.." == ['/'] + "..";
    SegmentsPastDelim('/', "..");
    assert ".." + "" == "..";
    SegmentsFront("..", "");
  }

  /** Either delimiter separates, and one at the end adds nothing. */
  lemma RealDelims(defaultPath: Option<string>, x: string, y: string)
    requires x != ""
    ensures Real(defaultPath, x + "\\" + y) == Real(defaultPath, x + "/" + y)
    ensures Real(defaultPath, x + "/") == Real(defaultPath, x)
  {
    RootSegments();
    hide Segments, Resolve, Render;
    SegmentsSplit(x, '/', y);
    SegmentsSplit(x, '\\', y);
    SegmentsSplit(x, '/', "");
    assert x + ['/'] + y == x + "/" + y && x + ['\\'] + y == x + "\\" + y && x + ['/'] + "" == x + "/";
    assert Segments(x) + [] == Segments(x);
    assert IsRelative(x + "\\" + y) == IsRelative(x + "/" + y) && IsRelative(x + "/") == IsRelative(x);
  }

  lemma AllFitAppends(stack: seq<string>, a: seq<string>, b: seq<string>, outSz: nat)
    ensures AllFit(stack, a + b, outSz) <==> AllFit(stack, a, outSz) && AllFit(Resolve(stack, a), b, outSz)
  {
    hide Resolve, Render;
    forall k | 0 <= k <= |a| + |b|
      ensures Resolve(stack, (a + b)[..k]) ==
              if k <= |a| then Resolve(stack, a[..k]) else Resolve(Resolve(stack, a), b[..k - |a|])
    {
      if k <= |a| {
        assert (a + b)[..k] == a[..k];
      } else {
        assert (a + b)[..k] == a + b[..k - |a|];
        ResolveAppends(stack, a, b[..k - |a|]);
      }
    }
    assert a[..|a|] == a && b[..0] == [];
    ResolveAppends(stack, a, []);
    assert a + [] == a;
    if AllFit(stack, a + b, outSz) {
      forall k | 0 <= k <= |a| ensures |Render(Resolve(stack, a[..k]))| < outSz {
        assert Resolve(stack, (a + b)[..k]) == Resolve(stack, a[..k]);
      }
      forall k | 0 <= k <= |b| ensures |Render(Resolve(Resolve(stack, a), b[..k]))| < outSz {
        assert |Render(Resolve(stack, (a + b)[..|a| + k]))| < outSz;
      }
    }
    if AllFit(stack, a, outSz) && AllFit(Resolve(stack, a), b, outSz) {
      forall k | 0 <= k <= |a + b| ensures |Render(Resolve(stack, (a + b)[..k]))| < outSz {
        if k > |a| {
          assert |Render(Resolve(Resolve(stack, a), b[..k - |a|]))| < outSz;
        } else {
          assert |Render(Resolve(stack, a[..k]))| < outSz;
        }
      }
    }
  }

  // ------------------------------------------------------- in the buffer

  /** A NUL-terminated string of n characters stands in the buffer. */
  ghost predicate CString(a: array<char>, n: nat)
    reads a
  {
    n < a.Length && a[n] == '\0' && '\0' !in a[..n]
  }

  ghost predicate Holds(a: array<char>, text: string)
    reads a
  {
    CString(a, |text|) && a[..|text|] == text
  }

  /** strtok: the next token from where the last one left off. */
  method StrTok(s: string, from: nat) returns (found: bool, start: nat, end: nat, tail: nat)
    requires from <= |s|
    ensures from <= start <= end <= tail <= |s|
    ensures found ==> IsToken(s[start..end]) && from < tail
                      && Segments(s[from..]) == [s[start..end]] + Segments(s[tail..])
    ensures !found ==> Segments(s[from..]) == []
  {
    hide Segments, TokenSz;
    start := from;
    while start < |s| && IsDelim(s[start])
      invariant from <= start <= |s| && Segments(s[from..]) == Segments(s[start..])
    {
      SegmentsSkip(s, start);
      start := start + 1;
    }
    end := start;
    while end < |s| && !IsDelim(s[end])
      invariant start <= end <= |s| && forall k :: start <= k < end ==> !IsDelim(s[k])
    {
      end := end + 1;
    }
    found := end > start;
    tail := if end < |s| then end + 1 else end;
    if found {
      assert s[start..] == s[start..end] + s[end..];
      SegmentsFront(s[start..end], s[end..]);
    }
    if end < |s| {
      SegmentsSkip(s, end);
    } else {
      SegmentsOfNothing(s);
    }
  }

  lemma SegmentsSkip(s: string, i: nat)
    requires i < |s| && IsDelim(s[i])
    ensures Segments(s[i..]) == Segments(s[i + 1..])
  {
    assert s[i..][1..] == s[i + 1..];
  }

  lemma SegmentsOfNothing(s: string)
    ensures Segments(s[|s|..]) == []
  {
  }

  /** strrchr for the separator; -1 where there is none. */
  method StrRChr(a: array<char>, n: nat) returns (prev: int)
    requires n <= a.Length
    ensures -1 <= prev < n && (prev >= 0 ==> a[prev] == '/')
    ensures forall k :: prev < k < n ==> a[k] != '/'
  {
    prev := n - 1;
    while prev >= 0 && a[prev] != '/'
      invariant -1 <= prev < n && forall k :: prev < k < n ==> a[k] != '/'
    {
      prev := prev - 1;
    }
  }

  method StrLen(a: array<char>, ghost n: nat) returns (len: nat)
    requires CString(a, n)
    ensures len == n
  {
    len := 0;
    while a[len] != '\0'
      invariant len <= n
      decreases n - len
    {
      len := len + 1;
    }
  }

  /** wstrncat: all of s with its terminator, or nothing. */
  method StrNCat(a: array<char>, s: string, ghost n: nat) returns (ok: bool)
    requires CString(a, n) && '\0' !in s
    modifies a
    ensures ok <==> n + |s| < a.Length
    ensures ok ==> CString(a, n + |s|) && a[..n + |s|] == old(a[..n]) + s
  {
    var len := StrLen(a, n);
    var freeSpace := a.Length - len - 1;
    if freeSpace < |s| {
      return false;
    }
    var i := 0;
    while i < |s|
      invariant i <= |s| && a[..n + i] == old(a[..n]) + s[..i]
    {
      a[len + i] := s[i];
      i := i + 1;
    }
    a[len + |s|] := '\0';
    assert a[..n + |s|] == old(a[..n]) + s;
    ok := true;
  }

  /** Where the last separator of a rendered stack stands. */
  lemma LastSlash(stack: seq<string>, at: nat)
    requires AllClean(stack) && stack != [] && at < |Slashed(stack)| && Slashed(stack)[at] == '/'
    requires forall k :: at < k < |Slashed(stack)| ==> Slashed(stack)[k] != '/'
    ensures at == |Slashed(stack[..|stack| - 1])| && Slashed(stack)[..at] == Slashed(stack[..|stack| - 1])
  {
    var n := |stack| - 1;
    var before := Slashed(stack[..n]);
    assert Slashed(stack) == before + "/" + stack[n];
    assert Slashed(stack)[|before|] == '/';
    assert stack[n] in stack && Clean(stack[n]);
    assert forall k :: 0 <= k < |stack[n]| ==> stack[n][k] in stack[n] && !IsDelim(stack[n][k]);
    assert forall k :: |before| < k < |Slashed(stack)| ==> Slashed(stack)[k] == stack[n][k - |before| - 1];
  }

  lemma PushRendered(stack: seq<string>, seg: string)
    requires AllClean(stack)
    ensures Render(stack + [seg]) == (if stack == [] then Render(stack) + seg else Render(stack) + "/" + seg)
    ensures |Render(stack)| == 1 <==> stack == []
  {
    assert (stack + [seg])[..|stack|] == stack && [] + "/" == "/";
    assert Slashed(stack + [seg]) == Slashed(stack) + "/" + seg;
    if stack != [] {
      var n := |stack| - 1;
      assert stack[n] in stack && Clean(stack[n]);
    }
  }

  /** What the loop does with a segment that is "..": the buffer is cut at its last
      separator, but the root stays. */
  method CutLast(out: array<char>, curSz: nat, ghost stack: seq<string>) returns (newSz: nat)
    requires AllClean(stack) && Holds(out, Render(stack)) && curSz == |Render(stack)| && out.Length >= 2
    modifies out
    ensures var up := if stack == [] then [] else stack[..|stack| - 1];
            newSz == |Render(up)| && Holds(out, Render(up))
  {
    newSz := curSz;
    ghost var was := out[..curSz];
    var prev := StrRChr(out, curSz);
    SlashedStarts(stack);
    assert out[..curSz][0] == '/';
    forall k | prev < k < curSz ensures was[k] != '/' {
      assert was[k] == out[k];
    }
    if stack != [] {
      LastSlash(stack, prev);
      SlashedStarts(stack[..|stack| - 1]);
    }
    if prev >= 0 {
      if prev != 0 {
        out[prev] := '\0';
        assert out[..prev] == was[..prev];
        assert forall c <- out[..prev] :: c in was;
        newSz := StrLen(out, prev);
      } else {
        out[1] := '\0';
        newSz := 1;
        assert out[..1] == was[..1];
      }
    }
  }

  /** Any other segment is appended, if it fits with its terminator. */
  method Append(out: array<char>, curSz: nat, seg: string, ghost stack: seq<string>)
    returns (ok: bool, newSz: nat)
    requires AllClean(stack) && Holds(out, Render(stack)) && curSz == |Render(stack)| && '\0' !in seg
    modifies out
    ensures ok <==> |Render(stack + [seg])| < out.Length
    ensures ok ==> newSz == |Render(stack + [seg])| && Holds(out, Render(stack + [seg]))
  {
    PushRendered(stack, seg);
    newSz := curSz;
    var sepSz := if curSz != 1 then 1 else 0;
    if |seg| >= out.Length || (var room: nat := out.Length - |seg|; curSz + sepSz >= room) {
      return false, newSz;
    }
    if curSz != 1 {
      ok := StrNCat(out, "/", curSz);
      if !ok {
        return;
      }
      newSz := newSz + 1;
    }
    ok := StrNCat(out, seg, newSz);
    if !ok {
      return;
    }
    newSz := newSz + |seg|;
  }

  /** The loop's body. */
  method Apply(out: array<char>, curSz: nat, seg: string, ghost stack: seq<string>)
    returns (ok: bool, newSz: nat)
    requires AllClean(stack) && Holds(out, Render(stack)) && curSz == |Render(stack)| && out.Length >= 2
    requires IsToken(seg) && '\0' !in seg
    modifies out
    ensures ok <==> |Render(Step(stack, seg))| < out.Length
    ensures ok ==> newSz == |Render(Step(stack, seg))| && Holds(out, Render(Step(stack, seg)))
                   && AllClean(Step(stack, seg))
  {
    ok, newSz := true, curSz;
    if seg == "." {
    } else if seg == ".." {
      newSz := CutLast(out, curSz, stack);
    } else {
      ok, newSz := Append(out, curSz, seg, stack);
    }
  }

  /** wolfSSH_RealPath: the buffer ends with the fold's path, and the call fails
      exactly when a path on the way does not fit. */
  method Canonicalise(defaultPath: Option<string>, path: string, out: array<char>) returns (ret: Ret)
    requires out.Length != 1 && '\0' !in path
    requires defaultPath.Some? ==> Canonical(defaultPath.value) && '\0' !in defaultPath.value
    modifies out
    ensures ret == BadArgument <==> out.Length == 0
    ensures ret == InvalidPath <==> out.Length > 0 && !Fits(defaultPath, path, out.Length)
    ensures ret == Success ==> Holds(out, Real(defaultPath, path))
  {
    hide Resolve, Render, Segments, Step, AllClean, Canonical, Base, Holds;
    if out.Length == 0 {
      return BadArgument;
    }
    ghost var base, segs := Base(defaultPath, path), Segments(path);
    var ok, curSz := Begin(defaultPath, path, out);
    assert segs[..0] == [];
    ResolveNothing(base);
    if !ok {
      assert |Render(Resolve(base, segs[..0]))| >= out.Length;
      return InvalidPath;
    }
    ghost var done, stack := 0, base;
    var found, start, end, tail := StrTok(path, 0);
    SegmentsAreTokens(path);
    assert path[0..] == path;
    while found
      invariant start <= end <= tail <= |path| && done <= |segs|
      invariant if found then done < |segs| && segs[done] == path[start..end]
                              && segs[done + 1..] == Segments(path[tail..])
                else done == |segs|
      invariant stack == Resolve(base, segs[..done]) && AllClean(stack)
      invariant Holds(out, Render(stack)) && curSz == |Render(stack)|
      invariant forall k :: 0 <= k <= done ==> |Render(Resolve(base, segs[..k]))| < out.Length
      decreases |path| - tail, found
    {
      var seg := path[start..end];
      assert segs[done] in segs && IsToken(seg) && forall c <- seg :: c in path;
      NextStack(base, segs, done);
      ok, curSz := Apply(out, curSz, seg, stack);
      if !ok {
        return InvalidPath;
      }
      done, stack := done + 1, Step(stack, seg);
      found, start, end, tail := StrTok(path, tail);
    }
    assert segs[..|segs|] == segs;
    ret := Success;
  }

  lemma ResolveNothing(base: seq<string>)
    ensures Resolve(base, []) == base
  {
  }

  lemma NextStack(base: seq<string>, segs: seq<string>, done: nat)
    requires done < |segs|
    ensures Resolve(base, segs[..done + 1]) == Step(Resolve(base, segs[..done]), segs[done])
  {
    assert segs[..done + 1] == segs[..done] + [segs[done]];
    ResolveAppends(base, segs[..done], [segs[done]]);
    assert [segs[done]][1..] == [];
  }

  /** The root, or the default path for a relative one. */
  method Begin(defaultPath: Option<string>, path: string, out: array<char>) returns (ok: bool, curSz: nat)
    requires out.Length >= 2
    requires defaultPath.Some? ==> Canonical(defaultPath.value) && '\0' !in defaultPath.value
    modifies out
    ensures ok <==> |Render(Base(defaultPath, path))| < out.Length
    ensures ok ==> curSz == |Render(Base(defaultPath, path))| && AllClean(Base(defaultPath, path))
                   && Holds(out, Render(Base(defaultPath, path)))
  {
    for i := 0 to out.Length
      invariant forall k :: 0 <= k < i ==> out[k] == '\0'
    {
      out[i] := '\0';
    }
    out[0] := '/';
    curSz := 1;
    if |path| == 0 || (!IsDelim(path[0]) && !(|path| > 1 && path[1] == ':')) {
      if defaultPath.Some? {
        curSz := |defaultPath.value|;
        if curSz >= out.Length {
          return false, curSz;
        }
        for i := 0 to curSz
          invariant out[..i] == defaultPath.value[..i]
        {
          out[i] := defaultPath.value[i];
        }
      }
    }
    out[curSz] := '\0';
    ok := true;
  }
}
