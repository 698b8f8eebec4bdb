/**
 Platform lists and platform names: comma-separated lists as `mission-control`
 and `satellite join` parse them and as `link` joins them, the architecture of
 a platform, and the socket path derived from it.
 */
module Platforms {
  import opened Wrappers
  import opened Picking

  /** Unicode White_Space, as trimmed by `str::trim`. */
  predicate IsWhitespace(c: char) {
    var n := c as int;
    || 9 <= n <= 13 || n == 0x20 || n == 0x85 || n == 0xA0 || n == 0x1680 || 0x2000 <= n <= 0x200A
    || n == 0x2028 || n == 0x2029 || n == 0x202F || n == 0x205F || n == 0x3000
  }

  /** The code points with the White_Space property in Unicode's PropList, one by one. */
  const WHITE_SPACE := [
    0x0009, 0x000A, 0x000B, 0x000C, 0x000D, 0x0020, 0x0085, 0x00A0, 0x1680, 0x2000, 0x2001, 0x2002, 0x2003, 0x2004,
    0x2005, 0x2006, 0x2007, 0x2008, 0x2009, 0x200A, 0x2028, 0x2029, 0x202F, 0x205F, 0x3000]

  lemma WhitespaceIsTheTable(c: char)
    ensures IsWhitespace(c) <==> c as int in WHITE_SPACE
  {
  }

  function TrimStart(s: string): string {
    if s != [] && IsWhitespace(s[0]) then TrimStart(s[1..]) else s
  }

  function TrimEnd(s: string): string {
    if s != [] && IsWhitespace(s[|s| - 1]) then TrimEnd(s[..|s| - 1]) else s
  }

  function Trim(s: string): string { TrimEnd(TrimStart(s)) }

  /** `split(',')`: always at least one piece. */
  function Split(s: string): (pieces: seq<string>)
    ensures |pieces| >= 1
  {
    if s == [] then [[]]
    else
      var rest := Split(s[1..]);
      if s[0] == ',' then [[]] + rest else [[s[0]] + rest[0]] + rest[1..]
  }

  function Join(pieces: seq<string>): string {
    if pieces == [] then [] else if |pieces| == 1 then pieces[0] else pieces[0] + "," + Join(pieces[1..])
  }

  function KeepNonBlank(pieces: seq<string>): seq<string> {
    if pieces == [] then []
    else (if Trim(pieces[0]) == [] then [] else [Trim(pieces[0])]) + KeepNonBlank(pieces[1..])
  }

  datatype ParseError = NoPlatform | Unsupported(platform: string)

  const LINUX := "linux/"

  function FirstUnsupported(platforms: seq<string>): Option<string> {
    if platforms == [] then None
    else if LINUX <= platforms[0] then FirstUnsupported(platforms[1..])
    else Some(platforms[0])
  }

  /** `mission_control::parse_platforms`. */
  function ParsePlatforms(s: string): Result<seq<string>, ParseError> {
    var platforms := KeepNonBlank(Split(s));
    if platforms == [] then Failure(NoPlatform)
    else match FirstUnsupported(platforms)
      case Some(platform) => Failure(Unsupported(platform))
      case None => Success(platforms)
  }

  /** `satellite::parse_satellite_platforms`. */
  function ParseSatellitePlatforms(s: string): Result<seq<string>, ParseError> {
    var platforms := KeepNonBlank(Split(s));
    match FirstUnsupported(platforms)
    case Some(platform) => Failure(Unsupported(platform))
    case None => Success(platforms)
  }

  /** What a parsed list looks like, said without the parser. */
  ghost predicate Clean(piece: string) {
    piece != [] && ',' !in piece && !IsWhitespace(piece[0]) && !IsWhitespace(piece[|piece| - 1])
  }

  ghost predicate PlatformList(ps: seq<string>) {
    ps != [] && forall i :: 0 <= i < |ps| ==> Clean(ps[i]) && LINUX <= ps[i]
  }

  lemma {:induction false} TrimStartSpec(s: string)
    ensures TrimStart(s) == [] || !IsWhitespace(TrimStart(s)[0])
    ensures exists k :: 0 <= k <= |s| && TrimStart(s) == s[k..]
  {
    if s != [] && IsWhitespace(s[0]) {
      TrimStartSpec(s[1..]);
      var k :| 0 <= k <= |s[1..]| && TrimStart(s) == s[1..][k..];
      assert TrimStart(s) == s[k + 1..];
    } else {
      assert s == s[0..];
    }
  }

  lemma {:induction false} TrimEndSpec(s: string)
    ensures TrimEnd(s) <= s
    ensures TrimEnd(s) == [] || !IsWhitespace(TrimEnd(s)[|TrimEnd(s)| - 1])
  {
    if s != [] && IsWhitespace(s[|s| - 1]) {
      TrimEndSpec(s[..|s| - 1]);
    }
  }

  ghost predicate Blank(s: string) { forall i :: 0 <= i < |s| ==> IsWhitespace(s[i]) }

  lemma {:induction false} TrimStartCutsBlank(s: string) returns (pre: string)
    ensures Blank(pre) && s == pre + TrimStart(s)
  {
    if s != [] && IsWhitespace(s[0]) {
      pre := TrimStartCutsBlank(s[1..]);
      pre := [s[0]] + pre;
    } else {
      pre := "";
    }
  }

  lemma {:induction false} TrimEndCutsBlank(s: string) returns (post: string)
    ensures Blank(post) && s == TrimEnd(s) + post
  {
    if s != [] && IsWhitespace(s[|s| - 1]) {
      post := TrimEndCutsBlank(s[..|s| - 1]);
      post := post + [s[|s| - 1]];
    } else {
      post := "";
    }
  }

  /** Trimming cuts white space off both ends, all of it and nothing else. */
  lemma TrimSpec(s: string) returns (pre: string, post: string)
    ensures Blank(pre) && Blank(post) && s == pre + Trim(s) + post
    ensures Trim(s) == [] || (!IsWhitespace(Trim(s)[0]) && !IsWhitespace(Trim(s)[|Trim(s)| - 1]))
  {
    TrimStartSpec(s);
    TrimEndSpec(TrimStart(s));
    pre := TrimStartCutsBlank(s);
    post := TrimEndCutsBlank(TrimStart(s));
  }

  lemma TrimIsClean(s: string)
    requires ',' !in s
    ensures Trim(s) == [] || Clean(Trim(s))
  {
    TrimStartSpec(s);
    TrimEndSpec(TrimStart(s));
  }

  lemma {:induction false} SplitHasNoComma(s: string)
    ensures forall i :: 0 <= i < |Split(s)| ==> ',' !in Split(s)[i]
  {
    if s != [] {
      SplitHasNoComma(s[1..]);
    }
  }

  lemma {:induction false} KeepNonBlankIsClean(pieces: seq<string>)
    requires forall i :: 0 <= i < |pieces| ==> ',' !in pieces[i]
    ensures forall i :: 0 <= i < |KeepNonBlank(pieces)| ==> Clean(KeepNonBlank(pieces)[i])
  {
    if pieces != [] {
      TrimIsClean(pieces[0]);
      KeepNonBlankIsClean(pieces[1..]);
    }
  }

  lemma {:induction false} CleanPiecesAreKept(pieces: seq<string>)
    requires forall i :: 0 <= i < |pieces| ==> Clean(pieces[i])
    ensures KeepNonBlank(pieces) == pieces
  {
    if pieces != [] {
      assert Clean(pieces[0]) && Trim(pieces[0]) == pieces[0];
      CleanPiecesAreKept(pieces[1..]);
    }
  }

  lemma {:induction false} SplitAtFirstComma(piece: string, rest: string)
    requires ',' !in piece
    ensures Split(piece + "," + rest) == [piece] + Split(rest)
    ensures Split(piece) == [piece]
  {
    if piece == [] {
      assert piece + "," + rest == "," + rest;
      assert ("," + rest)[1..] == rest;
    } else {
      SplitAtFirstComma(piece[1..], rest);
      assert (piece + "," + rest)[1..] == piece[1..] + "," + rest;
      assert [piece[0]] + piece[1..] == piece;
    }
  }

  lemma {:induction false} SplitJoin(pieces: seq<string>)
    requires pieces != [] && forall i :: 0 <= i < |pieces| ==> ',' !in pieces[i]
    ensures Split(Join(pieces)) == pieces
  {
    if |pieces| == 1 {
      SplitAtFirstComma(pieces[0], []);
    } else {
      SplitAtFirstComma(pieces[0], Join(pieces[1..]));
      SplitJoin(pieces[1..]);
    }
  }

  lemma JoinSplitComma(rest: seq<string>)
    requires rest != []
    ensures Join([[]] + rest) == "," + Join(rest)
  {
    assert ([[]] + rest)[1..] == rest;
  }

  lemma JoinSplitLetter(c: char, rest: seq<string>)
    requires rest != []
    ensures Join([[c] + rest[0]] + rest[1..]) == [c] + Join(rest)
  {
    var pieces := [[c] + rest[0]] + rest[1..];
    assert pieces[0] == [c] + rest[0] && pieces[1..] == rest[1..];
  }

  lemma {:induction false} JoinSplit(s: string)
    ensures Join(Split(s)) == s
  {
    if s != [] {
      JoinSplit(s[1..]);
      if s[0] == ',' {
        JoinSplitComma(Split(s[1..]));
      } else {
        JoinSplitLetter(s[0], Split(s[1..]));
      }
      assert s == [s[0]] + s[1..];
    }
  }

  /** Splitting at commas is the exact inverse of joining comma-free pieces. */
  lemma SplitIsExact(s: string, pieces: seq<string>)
    ensures Split(s) == pieces <==>
              pieces != [] && (forall i :: 0 <= i < |pieces| ==> ',' !in pieces[i]) && Join(pieces) == s
  {
    JoinSplit(s);
    SplitHasNoComma(s);
    if pieces != [] && (forall i :: 0 <= i < |pieces| ==> ',' !in pieces[i]) && Join(pieces) == s {
      SplitJoin(pieces);
    }
  }

  lemma {:induction false} KeepNonBlankMembers(pieces: seq<string>, p: string)
    ensures p in KeepNonBlank(pieces) <==> p != [] && exists i :: 0 <= i < |pieces| && Trim(pieces[i]) == p
  {
    if pieces != [] {
      KeepNonBlankMembers(pieces[1..], p);
      assert forall i :: 1 <= i < |pieces| ==> pieces[i] == pieces[1..][i - 1];
      assert forall i :: 0 <= i < |pieces[1..]| ==> pieces[1..][i] == pieces[i + 1];
    }
  }

  lemma {:induction false} KeepNonBlankGrows(pieces: seq<string>, piece: string)
    ensures KeepNonBlank(pieces + [piece]) == KeepNonBlank(pieces) + if Trim(piece) == [] then [] else [Trim(piece)]
  {
    if pieces == [] {
      assert KeepNonBlank([piece]) == (if Trim(piece) == [] then [] else [Trim(piece)]) + KeepNonBlank([piece][1..]);
    } else {
      assert (pieces + [piece])[1..] == pieces[1..] + [piece];
      KeepNonBlankGrows(pieces[1..], piece);
    }
  }

  lemma {:induction false} KeepNonBlankInOrder(pieces: seq<string>) returns (at: seq<nat>)
    ensures Picks(pieces, (piece: string) => Trim(piece) != [], at) && |KeepNonBlank(pieces)| == |at|
    ensures forall k :: 0 <= k < |at| ==> KeepNonBlank(pieces)[k] == Trim(pieces[at[k]])
    decreases |pieces|
  {
    at := [];
    if pieces != [] {
      var front, last := pieces[..|pieces| - 1], pieces[|pieces| - 1];
      at := KeepNonBlankInOrder(front);
      assert pieces == front + [last];
      KeepNonBlankGrows(front, last);
      at := PickNext(front, (piece: string) => Trim(piece) != [], at, last);
    }
  }

  /**
   What is parsed: the trimmed pieces that are not blank, in order. A refusal
   names the first of them that is no linux platform.
   */
  lemma ParsesInOrder(s: string) returns (at: seq<nat>)
    ensures Picks(Split(s), (piece: string) => Trim(piece) != [], at)
    ensures ParsePlatforms(s).Success? ==>
              && |ParsePlatforms(s).value| == |at|
              && forall k :: 0 <= k < |at| ==> ParsePlatforms(s).value[k] == Trim(Split(s)[at[k]])
    ensures ParsePlatforms(s).Failure? && ParsePlatforms(s).error.Unsupported? ==>
              exists k :: RefusedAt(Split(s), at, k) && ParsePlatforms(s).error.platform == Trim(Split(s)[at[k]])
  {
    var pieces := Split(s);
    at := KeepNonBlankInOrder(pieces);
    FirstRefused(pieces, at, KeepNonBlank(pieces));
  }

  /** The `k`-th kept piece is the first that names no linux platform. */
  ghost predicate RefusedAt(pieces: seq<string>, at: seq<nat>, k: int)
    requires forall j :: 0 <= j < |at| ==> at[j] < |pieces|
  {
    && 0 <= k < |at| && !(LINUX <= Trim(pieces[at[k]]))
    && forall j :: 0 <= j < k ==> LINUX <= Trim(pieces[at[j]])
  }

  lemma FirstRefused(pieces: seq<string>, at: seq<nat>, ps: seq<string>)
    requires forall j :: 0 <= j < |at| ==> at[j] < |pieces|
    requires |ps| == |at| && forall k :: 0 <= k < |at| ==> ps[k] == Trim(pieces[at[k]])
    ensures FirstUnsupported(ps).Some? ==>
              exists k :: RefusedAt(pieces, at, k) && FirstUnsupported(ps).value == Trim(pieces[at[k]])
  {
    FirstUnsupportedSpec(ps);
    if FirstUnsupported(ps).Some? {
      var k :| 0 <= k < |ps| && FirstUnsupported(ps).value == ps[k] && !(LINUX <= ps[k])
               && forall j :: 0 <= j < k ==> LINUX <= ps[j];
      assert RefusedAt(pieces, at, k);
    }
  }

  ghost predicate NonBlankPiece(s: string, i: int) { 0 <= i < |Split(s)| && Trim(Split(s)[i]) != [] }

  /** Which texts are accepted: some piece is not blank, and every piece that is not blank names a linux platform. */
  lemma ParseAccepts(s: string)
    ensures ParsePlatforms(s).Success? <==>
              (exists i :: NonBlankPiece(s, i)) && forall i :: NonBlankPiece(s, i) ==> LINUX <= Trim(Split(s)[i])
    ensures ParsePlatforms(s) == Failure(NoPlatform) <==> forall i :: !NonBlankPiece(s, i)
  {
    var ps := KeepNonBlank(Split(s));
    FirstUnsupportedSpec(ps);
    forall p
      ensures p in ps <==> exists i :: NonBlankPiece(s, i) && Trim(Split(s)[i]) == p
    {
      KeepNonBlankMembers(Split(s), p);
    }
    if ps != [] {
      assert ps[0] in ps;
    }
    forall i | NonBlankPiece(s, i)
      ensures Trim(Split(s)[i]) in ps
    {
      KeepNonBlankMembers(Split(s), Trim(Split(s)[i]));
    }
    if FirstUnsupported(ps).Some? {
      assert FirstUnsupported(ps).value in ps;
    }
  }

  lemma {:induction false} FirstUnsupportedSpec(ps: seq<string>)
    ensures FirstUnsupported(ps).None? <==> forall i :: 0 <= i < |ps| ==> LINUX <= ps[i]
    ensures FirstUnsupported(ps).Some? ==>
              exists i :: 0 <= i < |ps| && FirstUnsupported(ps).value == ps[i] && !(LINUX <= ps[i])
                          && forall j :: 0 <= j < i ==> LINUX <= ps[j]
  {
    if ps != [] {
      FirstUnsupportedSpec(ps[1..]);
      if LINUX <= ps[0] && FirstUnsupported(ps).Some? {
        var i :| 0 <= i < |ps[1..]| && FirstUnsupported(ps).value == ps[1..][i] && !(LINUX <= ps[1..][i])
                 && forall j :: 0 <= j < i ==> LINUX <= ps[1..][j];
        assert forall j :: 0 < j < i + 1 ==> ps[j] == ps[1..][j - 1];
        assert ps[i + 1] == ps[1..][i];
      }
    }
  }

  /** Parsed lists are exactly the well-formed ones, and joining with commas loses nothing of them. */
  lemma ParseJoinRoundTrip(ps: seq<string>)
    ensures PlatformList(ps) <==> ParsePlatforms(Join(ps)) == Success(ps)
  {
    if PlatformList(ps) {
      assert forall i :: 0 <= i < |ps| ==> Clean(ps[i]);
      SplitJoin(ps);
      CleanPiecesAreKept(ps);
      FirstUnsupportedSpec(ps);
    }
    if ParsePlatforms(Join(ps)) == Success(ps) {
      ParsedIsPlatformList(Join(ps), ps);
    }
  }

  lemma ParsedIsPlatformList(s: string, ps: seq<string>)
    requires ParsePlatforms(s) == Success(ps)
    ensures PlatformList(ps)
  {
    SplitHasNoComma(s);
    KeepNonBlankIsClean(Split(s));
    FirstUnsupportedSpec(ps);
  }

  /** The list a Mission Control child process parses is the list `link` was given. */
  lemma ChildSeesSameList(s: string, ps: seq<string>)
    requires ParsePlatforms(s) == Success(ps)
    ensures ParsePlatforms(Join(ps)) == Success(ps)
  {
    ParsedIsPlatformList(s, ps);
    ParseJoinRoundTrip(ps);
  }

  /** The two parsers differ on exactly one case: a list without any platform. */
  lemma ParsersAgree(s: string)
    ensures ParsePlatforms(s) == Failure(NoPlatform) <==> ParseSatellitePlatforms(s) == Success([])
    ensures ParsePlatforms(s) != Failure(NoPlatform) ==> ParsePlatforms(s) == ParseSatellitePlatforms(s)
  {
  }

  // ----- architecture and socket path -----

  /** `platform_to_arch`: the part after the last slash; the original panics without one. */
  function ArchOf(platform: string): string
    requires '/' in platform
  {
    if '/' in platform[1..] then ArchOf(platform[1..]) else platform[1..]
  }

  /** Only one suffix follows a last slash. */
  lemma {:induction false} ArchIsUnique(pre: string, arch: string)
    requires '/' !in arch
    ensures ArchOf(pre + "/" + arch) == arch
  {
    var platform := pre + "/" + arch;
    assert platform[|pre|] == '/';
    if pre == "" {
      assert platform[1..] == arch;
    } else {
      assert platform[1..] == pre[1..] + "/" + arch;
      assert platform[1..][|pre| - 1] == '/';
      ArchIsUnique(pre[1..], arch);
    }
  }

  /** It is what follows the last slash. */
  lemma {:induction false} ArchFollowsLastSlash(platform: string) returns (pre: string)
    requires '/' in platform
    ensures platform == pre + "/" + ArchOf(platform) && '/' !in ArchOf(platform)
  {
    if '/' in platform[1..] {
      pre := ArchFollowsLastSlash(platform[1..]);
      pre := [platform[0]] + pre;
    } else {
      pre := "";
    }
  }

  /** `linux/<arch>` and nothing more. */
  ghost predicate Plain(platform: string) {
    LINUX <= platform && '/' !in platform[|LINUX|..]
  }

  lemma PlainIsLinuxArch(platform: string)
    requires LINUX <= platform
    ensures '/' in platform
    ensures Plain(platform) <==> platform == LINUX + ArchOf(platform)
  {
    var rest := platform[|LINUX|..];
    assert LINUX == "linux" + "/" && platform == "linux" + "/" + rest;
    assert platform[5] == '/';
    if '/' !in rest {
      ArchIsUnique("linux", rest);
    } else {
      var pre := ArchFollowsLastSlash(platform);
      assert (LINUX + ArchOf(platform))[|LINUX|..] == ArchOf(platform);
    }
  }

  /** `socket_dir.join("orbit-<arch>.sock")`. */
  function SocketPath(dir: string, platform: string): string
    requires '/' in platform
  {
    (if dir == "" || dir[|dir| - 1] == '/' then dir else dir + "/") + "orbit-" + ArchOf(platform) + ".sock"
  }

  /** The socket is a file of the directory itself, named after the part behind the last slash. */
  lemma SocketPathIsInDir(dir: string, pre: string, arch: string) returns (base: string)
    requires '/' !in arch
    ensures '/' in pre + "/" + arch
    ensures base == dir || base == dir + "/"
    ensures base == "" <==> dir == ""
    ensures base != "" ==> base[|base| - 1] == '/'
    ensures SocketPath(dir, pre + "/" + arch) == base + ("orbit-" + arch + ".sock")
    ensures '/' !in "orbit-" + arch + ".sock"
  {
    ArchIsUnique(pre, arch);
    assert (pre + "/" + arch)[|pre|] == '/';
    base := if dir == "" || dir[|dir| - 1] == '/' then dir else dir + "/";
  }

  lemma CancelEnds(pre: string, a: string, b: string, post: string)
    ensures pre + a + post == pre + b + post <==> a == b
  {
    var x, y := pre + a + post, pre + b + post;
    if x == y {
      assert |a| == |b|;
      assert x[|pre|..][..|a|] == a && y[|pre|..][..|b|] == b;
    }
  }

  /** Two platforms share a socket exactly when they share their last component. */
  lemma SocketPathIffArch(dir: string, p: string, q: string)
    requires '/' in p && '/' in q
    ensures SocketPath(dir, p) == SocketPath(dir, q) <==> ArchOf(p) == ArchOf(q)
  {
    var base := if dir == "" || dir[|dir| - 1] == '/' then dir else dir + "/";
    CancelEnds(base + "orbit-", ArchOf(p), ArchOf(q), ".sock");
  }

  lemma PlainPathsAreInjective(dir: string, p: string, q: string)
    requires Plain(p) && Plain(q)
    ensures '/' in p && '/' in q
    ensures SocketPath(dir, p) == SocketPath(dir, q) <==> p == q
  {
    PlainIsLinuxArch(p);
    PlainIsLinuxArch(q);
    SocketPathIffArch(dir, p, q);
  }
}
