/** src/functions/gstring.cpp `str_replace` and src/functions/gsystem.cpp `fix_path_slashes`:
    string editing in loops, specified by the leftmost split of the subject. */
module GString {

  /** `p` occurs in `s` at index `i`. */
  predicate At(s: string, p: string, i: int) {
    0 <= i <= |s| && p <= s[i..]
  }

  const NPOS := -1

  /** `s.find(p)`, scanning from the left. */
  function Find(s: string, p: string): (r: int)
    ensures r == NPOS || 0 <= r <= r + |p| <= |s|
  {
    if p <= s then 0
    else if s == "" then NPOS
    else
      var r := Find(s[1..], p);
      if r == NPOS then NPOS else 1 + r
  }

  /** `s.find(p, pos)` */
  function FindFrom(s: string, p: string, pos: nat): (r: int)
    requires pos <= |s|
    ensures r == NPOS || pos <= r <= r + |p| <= |s|
  {
    var r := Find(s[pos..], p);
    if r == NPOS then NPOS else pos + r
  }

  /** `at` is the least index at which `p` occurs, or NPOS and `p` occurs nowhere. */
  ghost predicate IsFirst(s: string, p: string, at: int) {
    && (at != NPOS ==> At(s, p, at))
    && forall i :: 0 <= i <= |s| && (at == NPOS || i < at) ==> !At(s, p, i)
  }

  lemma {:induction false} FindIsFirst(s: string, p: string)
    ensures IsFirst(s, p, Find(s, p))
    decreases s
  {
    assert s[0..] == s;
    if p <= s {
    } else if s != "" {
      var t := s[1..];
      FindIsFirst(t, p);
      forall i | 1 <= i <= |s| ensures At(s, p, i) == At(t, p, i - 1) {
        assert s[i..] == t[i - 1..];
      }
    }
  }

  /** `Find` is what `std::string::find` promises, and nothing else is. */
  lemma FindIffFirst(s: string, p: string, at: int)
    ensures at == Find(s, p) <==> IsFirst(s, p, at)
  {
    FindIsFirst(s, p);
  }

  // ---------------------------------------------------------------- split and join

  /** The pieces of `subject` between the leftmost non-overlapping occurrences of `search`. */
  function Split(search: string, subject: string): (parts: seq<string>)
    requires search != ""
    ensures parts != []
    decreases |subject|
  {
    var at := Find(subject, search);
    if at == NPOS then [subject]
    else [subject[..at]] + Split(search, subject[at + |search|..])
  }

  function Join(parts: seq<string>, sep: string): string
    requires parts != []
  {
    if |parts| == 1 then parts[0] else parts[0] + sep + Join(parts[1..], sep)
  }

  /** What `str_replace` is for: the occurrences replaced, everything else kept. */
  function Replaced(search: string, replace: string, subject: string): string
    requires search != ""
  {
    Join(Split(search, subject), replace)
  }

  lemma JoinCons(piece: string, parts: seq<string>, sep: string)
    requires parts != []
    ensures Join([piece] + parts, sep) == piece + sep + Join(parts, sep)
  {
    assert ([piece] + parts)[1..] == parts;
  }

  lemma ReplacedAtFind(search: string, replace: string, s: string, at: nat)
    requires search != "" && Find(s, search) == at
    ensures at + |search| <= |s|
    ensures Replaced(search, replace, s) == s[..at] + replace + Replaced(search, replace, s[at + |search|..])
  {
    SplitAtFind(search, s, at, s[..at], s[at + |search|..]);
    JoinCons(s[..at], Split(search, s[at + |search|..]), replace);
  }

  lemma {:induction false} SplitAtFind(search: string, s: string, at: nat, piece: string, rest: string)
    requires search != "" && Find(s, search) == at && at + |search| <= |s|
    requires piece == s[..at] && rest == s[at + |search|..]
    ensures Split(search, s) == [piece] + Split(search, rest)
  {
  }

  lemma Cut(a: string, b: string)
    ensures (a + b)[..|a|] == a && (a + b)[|a|..] == b
  {
  }

  lemma CutInside(a: string, b: string, k: nat)
    requires k <= |b|
    ensures (a + b)[..|a| + k] == a + b[..k] && (a + b)[|a| + k..] == b[k..]
  {
  }

  lemma Concat3(a: string, b: string, c: string, d: string)
    ensures a + (b + c + d) == a + b + c + d
  {
  }

  lemma FindAfter(done: string, todo: string, search: string)
    ensures FindFrom(done + todo, search, |done|)
         == if Find(todo, search) == NPOS then NPOS else |done| + Find(todo, search)
  {
    Cut(done, todo);
  }

  /** `str.replace(pos, len, with)` */
  function Edit(str: string, pos: nat, len: nat, with: string): string
    requires pos + len <= |str|
  {
    str[..pos] + with + str[pos + len..]
  }

  lemma EditBehind(done: string, todo: string, k: nat, len: nat, with: string, scanned: string, rest: string)
    requires k + len <= |todo| && scanned == done + todo[..k] + with && rest == todo[k + len..]
    ensures Edit(done + todo, |done| + k, len, with) == scanned + rest
  {
    CutInside(done, todo, k);
    CutInside(done, todo, k + len);
  }

  lemma ReplacedBehind(search: string, replace: string, done: string, todo: string, k: nat,
                       scanned: string, rest: string)
    requires search != "" && Find(todo, search) == k && k + |search| <= |todo|
    requires scanned == done + todo[..k] + replace && rest == todo[k + |search|..]
    ensures done + Replaced(search, replace, todo) == scanned + Replaced(search, replace, rest)
  {
    ReplacedAtFind(search, replace, todo, k);
    Concat3(done, todo[..k], replace, Replaced(search, replace, rest));
  }

  lemma StepAt(search: string, replace: string, done: string, todo: string, k: nat)
    returns (scanned: string, rest: string)
    requires search != "" && Find(todo, search) == k
    ensures |scanned| == |done| + k + |replace| && |rest| < |todo| && k + |search| <= |todo|
    ensures Edit(done + todo, |done| + k, |search|, replace) == scanned + rest
    ensures done + Replaced(search, replace, todo) == scanned + Replaced(search, replace, rest)
  {
    scanned, rest := done + todo[..k] + replace, todo[k + |search|..];
    EditBehind(done, todo, k, |search|, replace, scanned, rest);
    ReplacedBehind(search, replace, done, todo, k, scanned, rest);
  }

  /** One iteration: `done` is the text before `pos`, `todo` the text behind it. */
  lemma LoopStep(search: string, replace: string, done: string, todo: string, at: nat)
    returns (scanned: string, rest: string)
    requires search != "" && FindFrom(done + todo, search, |done|) == at
    ensures |scanned| == at + |replace| && |rest| < |todo|
    ensures Edit(done + todo, at, |search|, replace) == scanned + rest
    ensures done + Replaced(search, replace, todo) == scanned + Replaced(search, replace, rest)
  {
    FindAfter(done, todo, search);
    scanned, rest := StepAt(search, replace, done, todo, at - |done|);
  }

  lemma LastStep(search: string, replace: string, done: string, todo: string)
    requires search != "" && FindFrom(done + todo, search, |done|) == NPOS
    ensures Replaced(search, replace, todo) == todo
  {
    FindAfter(done, todo, search);
    NothingToReplace(search, replace, todo);
  }

  /** The in-place loop. An empty `search` would make the source loop for ever. */
  method StrReplace(search: string, replace: string, subject: string) returns (str: string)
    requires search != ""
    ensures str == Replaced(search, replace, subject)
  {
    str := subject;
    var pos := 0;
    ghost var done, todo := "", subject;
    EmptyPrefix(subject);
    EmptyPrefix(Replaced(search, replace, subject));
    var at := FindFrom(str, search, pos);
    while at != NPOS
      invariant str == done + todo && pos == |done|
      invariant at == FindFrom(str, search, pos)
      invariant done + Replaced(search, replace, todo) == Replaced(search, replace, subject)
      decreases |todo|
    {
      done, todo := LoopStep(search, replace, done, todo, at);
      str := Edit(str, at, |search|, replace);
      pos := at + |replace|;
      at := FindFrom(str, search, pos);
    }
    LastStep(search, replace, done, todo);
  }

  lemma NothingToReplace(search: string, replace: string, s: string)
    requires search != "" && Find(s, search) == NPOS
    ensures Replaced(search, replace, s) == s
  {
  }

  lemma EmptyPrefix(s: string)
    ensures "" + s == s
  {
  }

  /** Undoing the split with `search` itself gives the subject back. */
  lemma {:induction false} SplitJoin(search: string, subject: string)
    requires search != ""
    ensures Join(Split(search, subject), search) == subject
    decreases |subject|
  {
    var at := Find(subject, search);
    if at != NPOS {
      ReplacedAtFind(search, search, subject, at);
      SplitJoin(search, subject[at + |search|..]);
      OccurrenceAt(subject, search);
    }
  }

  lemma OccurrenceAt(s: string, p: string)
    requires Find(s, p) != NPOS
    ensures s == s[..Find(s, p)] + p + s[Find(s, p) + |p|..]
  {
    FindIsFirst(s, p);
    PrefixAt(s, p, Find(s, p));
  }

  lemma PrefixAt(s: string, p: string, at: nat)
    requires at <= |s| && p <= s[at..]
    ensures s == s[..at] + p + s[at + |p|..]
  {
    Suffix(s, at, |p|);
    assert s[at..] == p + s[at..][|p|..];
  }

  /** Pieces cut at the leftmost occurrences: in `piece + search` the first occurrence is the
      one after the piece, and the last piece holds none. */
  ghost predicate LeftmostPieces(parts: seq<string>, search: string)
    requires parts != []
  {
    if |parts| == 1 then Find(parts[0], search) == NPOS
    else Find(parts[0] + search, search) == |parts[0]| && LeftmostPieces(parts[1..], search)
  }

  lemma {:induction false} FindAfterPiece(piece: string, search: string, rest: string)
    requires search != ""
    ensures Find(piece + search, search) == |piece| <==> Find(piece + search + rest, search) == |piece|
    decreases piece
  {
    var a, b := piece + search, piece + search + rest;
    assert a <= b && |search| <= |a|;
    assert search <= a <==> search <= b;
    if piece != "" {
      FindAfterPiece(piece[1..], search, rest);
      assert a[1..] == piece[1..] + search && b[1..] == piece[1..] + search + rest;
    }
  }

  /** `Split` is the only way to write the subject as leftmost pieces joined by `search`. */
  lemma {:induction false} SplitUnique(search: string, subject: string, parts: seq<string>)
    requires search != "" && parts != []
    ensures parts == Split(search, subject) <==> LeftmostPieces(parts, search) && Join(parts, search) == subject
    decreases |parts|
  {
    if parts == Split(search, subject) {
      SplitPieces(search, subject);
      SplitJoin(search, subject);
    }
    if LeftmostPieces(parts, search) && Join(parts, search) == subject {
      PiecesAreSplit(search, parts);
    }
  }

  lemma {:induction false} SplitPieces(search: string, subject: string)
    requires search != ""
    ensures LeftmostPieces(Split(search, subject), search)
    decreases |subject|
  {
    var at := Find(subject, search);
    if at != NPOS {
      var rest := subject[at + |search|..];
      SplitPieces(search, rest);
      OccurrenceAt(subject, search);
      FindAfterPiece(subject[..at], search, rest);
      assert Split(search, subject)[1..] == Split(search, rest);
    }
  }

  lemma SplitAtPiece(search: string, piece: string, tail: string)
    requires search != "" && Find(piece + search, search) == |piece|
    ensures Split(search, piece + search + tail) == [piece] + Split(search, tail)
  {
    FindAfterPiece(piece, search, tail);
    var subject := piece + search + tail;
    SplitAtFind(search, subject, |piece|, piece, tail);
  }

  lemma {:induction false} PiecesAreSplit(search: string, parts: seq<string>)
    requires search != "" && parts != [] && LeftmostPieces(parts, search)
    ensures parts == Split(search, Join(parts, search))
    decreases |parts|
  {
    if |parts| > 1 {
      PiecesAreSplit(search, parts[1..]);
      SplitAtPiece(search, parts[0], Join(parts[1..], search));
    }
  }

  /** |result| = |subject| + count * (|replace| - |search|). */
  lemma {:induction false} ReplacedLength(search: string, replace: string, subject: string)
    requires search != ""
    ensures |Replaced(search, replace, subject)|
         == |subject| + (|Split(search, subject)| - 1) * (|replace| - |search|)
    decreases |subject|
  {
    var at := Find(subject, search);
    if at != NPOS {
      var rest := subject[at + |search|..];
      ReplacedAtFind(search, replace, subject, at);
      ReplacedLength(search, replace, rest);
      assert |Split(search, subject)| == 1 + |Split(search, rest)|;
      Distribute(|Split(search, rest)|, |replace| - |search|);
    }
  }

  lemma Distribute(n: int, d: int)
    ensures n * d == (n - 1) * d + d
  {
  }

  /** One step of a left-to-right scan: take an occurrence here, or copy one character. */
  lemma ReplacedScan(search: string, replace: string, s: string)
    requires search != ""
    ensures s == "" ==> Replaced(search, replace, s) == ""
    ensures search <= s ==>
              Replaced(search, replace, s) == replace + Replaced(search, replace, s[|search|..])
    ensures s != "" && !(search <= s) ==>
              Replaced(search, replace, s) == [s[0]] + Replaced(search, replace, s[1..])
  {
    if search <= s {
      ReplacedAtFind(search, replace, s, 0);
      EmptyPrefix(replace);
    } else if s != "" {
      ReplacedCopy(search, replace, s);
    }
  }

  lemma ReplacedCopy(search: string, replace: string, s: string)
    requires search != "" && s != "" && !(search <= s)
    ensures Replaced(search, replace, s) == [s[0]] + Replaced(search, replace, s[1..])
  {
    var t := s[1..];
    if Find(t, search) == NPOS {
      NothingToReplace(search, replace, t);
      NothingToReplace(search, replace, s);
    } else {
      ReplacedCopyAt(search, replace, s, Find(t, search));
    }
  }

  lemma ReplacedCopyAt(search: string, replace: string, s: string, at: nat)
    requires search != "" && s != "" && Find(s[1..], search) == at && Find(s, search) == 1 + at
    ensures Replaced(search, replace, s) == [s[0]] + Replaced(search, replace, s[1..])
  {
    ReplacedAtFind(search, replace, s, 1 + at);
    ReplacedAtFind(search, replace, s[1..], at);
    CopyEqual(s, at, |search|);
    Concat3([s[0]], s[1..][..at], replace, Replaced(search, replace, s[1..][at + |search|..]));
  }

  lemma CopyEqual(s: string, at: nat, n: nat)
    requires s != "" && at + n <= |s[1..]|
    ensures s[1 + at + n..] == s[1..][at + n..]
    ensures s[..1 + at] == [s[0]] + s[1..][..at]
  {
  }

  // ---------------------------------------------------------------- fix_path_slashes

  predicate IsSlash(c: char) { c == '/' || c == '\\' }

  /** `std::replace(path.begin(), path.end(), '\\', '/')` */
  function ForwardSlashes(path: string): (r: string)
    ensures |r| == |path|
    ensures forall i :: 0 <= i < |path| ==> r[i] == if path[i] == '\\' then '/' else path[i]
  {
    seq(|path|, i requires 0 <= i < |path| => if path[i] == '\\' then '/' else path[i])
  }

  /** The length of the maximal run of slashes of either kind that `s` starts with. */
  function SlashRun(s: string): (k: nat)
    ensures k <= |s|
  {
    if s != "" && IsSlash(s[0]) then 1 + SlashRun(s[1..]) else 0
  }

  function Slashes(n: nat): string { seq(n, _ => '/') }

  /** Every maximal run of k slashes becomes ceil(k / 2) forward slashes; the rest is kept. */
  function RunsHalved(path: string): string
    decreases |path|
  {
    if path == "" then ""
    else if IsSlash(path[0]) then
      var k := SlashRun(path);
      Slashes((k + 1) / 2) + RunsHalved(path[k..])
    else [path[0]] + RunsHalved(path[1..])
  }

  lemma SlashRunPair(path: string)
    requires |path| >= 2 && IsSlash(path[0]) && IsSlash(path[1])
    ensures SlashRun(path) == 2 + SlashRun(path[2..])
  {
    assert path[1..][1..] == path[2..];
    assert SlashRun(path[1..]) == 1 + SlashRun(path[1..][1..]);
  }

  lemma RunsHalvedPair(path: string)
    requires |path| >= 2 && IsSlash(path[0]) && IsSlash(path[1])
    ensures RunsHalved(path) == "/" + RunsHalved(path[2..])
  {
    var k := SlashRun(path[2..]);
    var rest := path[2 + k..];
    SlashRunPair(path);
    Suffix(path, 2, k);
    RunFirst(path, k + 2, rest);
    RunFirst(path[2..], k, rest);
    SlashesSucc(k, RunsHalved(rest));
  }

  lemma Suffix(s: string, a: nat, b: nat)
    requires a + b <= |s|
    ensures s[a..][b..] == s[a + b..]
  {
  }

  lemma SlashesSucc(k: nat, tail: string)
    ensures Slashes((k + 2 + 1) / 2) + tail == "/" + (Slashes((k + 1) / 2) + tail)
  {
    assert (k + 2 + 1) / 2 == (k + 1) / 2 + 1;
  }

  lemma RunFirst(path: string, k: nat, rest: string)
    requires k == SlashRun(path) && rest == path[k..]
    ensures RunsHalved(path) == Slashes((k + 1) / 2) + RunsHalved(rest)
  {
    if k == 0 {
      assert rest == path;
      EmptyPrefix(RunsHalved(path));
      assert Slashes(0) == "";
    }
  }

  /** The replacement pass over the unified string is exactly `RunsHalved`. */
  lemma {:induction false} PassHalvesRuns(path: string)
    ensures Replaced("//", "/", ForwardSlashes(path)) == RunsHalved(path)
    decreases |path|
  {
    var s := ForwardSlashes(path);
    ReplacedScan("//", "/", s);
    if "//" <= s {
      assert s[2..] == ForwardSlashes(path[2..]);
      PassHalvesRuns(path[2..]);
      RunsHalvedPair(path);
    } else if path != "" {
      assert s[1..] == ForwardSlashes(path[1..]);
      PassHalvesRuns(path[1..]);
      if IsSlash(path[0]) {
        assert |path| >= 2 ==> !IsSlash(path[1]);
        assert SlashRun(path) == 1;
        assert Slashes(1) == "/";
      }
    }
  }

  /** The non-Windows branch. */
  method FixPathSlashes(path: string) returns (r: string)
    ensures r == RunsHalved(path)
  {
    r := StrReplace("//", "/", ForwardSlashes(path));
    PassHalvesRuns(path);
  }

  ghost predicate HasRun(s: string, n: nat) {
    exists i :: 0 <= i <= |s| && n <= SlashRun(s[i..])
  }

  lemma HasRunPrepend(s: string, n: nat)
    requires s != "" && n > 0
    ensures HasRun(s, n) <==> n <= SlashRun(s) || HasRun(s[1..], n)
  {
    assert s[0..] == s;
    if HasRun(s[1..], n) {
      var i :| 0 <= i <= |s[1..]| && n <= SlashRun(s[1..][i..]);
      assert s[1..][i..] == s[i + 1..];
    }
    if HasRun(s, n) {
      var i :| 0 <= i <= |s| && n <= SlashRun(s[i..]);
      if i > 0 { assert s[1..][i - 1..] == s[i..]; }
    }
  }

  ghost predicate Normalises(path: string) {
    && (HasRun(RunsHalved(path), 2) <==> HasRun(path, 3))
    && SlashRun(RunsHalved(path)) == (SlashRun(path) + 1) / 2
  }

  lemma NormalisesPair(path: string)
    requires |path| >= 2 && IsSlash(path[0]) && IsSlash(path[1]) && Normalises(path[2..])
    ensures Normalises(path)
  {
    var r := RunsHalved(path);
    RunsHalvedPair(path);
    SlashRunPair(path);
    assert r[1..] == RunsHalved(path[2..]);
    HasRunPrepend(path, 3);
    HasRunPrepend(path[1..], 3);
    assert path[1..][1..] == path[2..];
    HasRunPrepend(r, 2);
  }

  lemma NormalisesSingle(path: string)
    requires path != "" && (IsSlash(path[0]) && |path| >= 2 ==> !IsSlash(path[1])) && Normalises(path[1..])
    ensures Normalises(path)
  {
    var r := RunsHalved(path);
    if IsSlash(path[0]) { assert SlashRun(path) == 1 && Slashes(1) == "/"; }
    assert r[1..] == RunsHalved(path[1..]);
    HasRunPrepend(path, 3);
    HasRunPrepend(r, 2);
  }

  /** One pass does not normalise every path: the result is free of double slashes exactly when
      the input has no three slashes in a row. */
  lemma {:induction false} NormalisedIff(path: string)
    ensures HasRun(RunsHalved(path), 2) <==> HasRun(path, 3)
    ensures SlashRun(RunsHalved(path)) == (SlashRun(path) + 1) / 2
    decreases |path|
  {
    if path == "" {
    } else if |path| >= 2 && IsSlash(path[0]) && IsSlash(path[1]) {
      NormalisedIff(path[2..]);
      NormalisesPair(path);
    } else {
      NormalisedIff(path[1..]);
      NormalisesSingle(path);
    }
  }

  /** Three slashes keep a double one. */
  lemma ThreeSlashesStayTwo()
    ensures RunsHalved("///") == "//"
  {
  }
}
