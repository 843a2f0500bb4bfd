/** src/commands/game_server_cmd.cpp: `replace_shortcodes` runs one replacement pass per built-in
    name and then one per server variable; `start` expands `{command}` before that. */
module Shortcodes {
  import opened GString
  import opened Numerals

  // ---------------------------------------------------------------- templates

  datatype Token = Lit(text: string) | Hole(name: string)

  predicate BraceFree(s: string) {
    forall i :: 0 <= i < |s| ==> s[i] != '{' && s[i] != '}'
  }

  function Tag(name: string): (t: string)
    ensures |t| == |name| + 2
  {
    "{" + name + "}"
  }

  function Show(t: Token): string {
    match t
    case Lit(text) => text
    case Hole(name) => Tag(name)
  }

  function Render(ts: seq<Token>): string {
    if ts == [] then "" else Show(ts[0]) + Render(ts[1..])
  }

  predicate BraceFreeToken(t: Token) {
    match t
    case Lit(text) => BraceFree(text)
    case Hole(name) => BraceFree(name)
  }

  predicate WellFormed(ts: seq<Token>) {
    forall i :: 0 <= i < |ts| ==> BraceFreeToken(ts[i])
  }

  predicate TameToken(t: Token, c: char) {
    match t
    case Lit(text) => c !in text
    case Hole(name) => BraceFree(name)
  }

  /** A template whose literals lack the brace `c`; well-formed ones lack both. */
  predicate Tame(ts: seq<Token>, c: char) {
    forall i :: 0 <= i < |ts| ==> TameToken(ts[i], c)
  }

  predicate IsBrace(c: char) { c == '{' || c == '}' }

  lemma WellFormedIsTame(ts: seq<Token>, c: char)
    requires WellFormed(ts) && IsBrace(c)
    ensures Tame(ts, c)
  {
    forall i | 0 <= i < |ts| ensures TameToken(ts[i], c) {
      assert BraceFreeToken(ts[i]);
    }
  }

  /** The template with every hole called `name` replaced by the tokens `us`. */
  function Splice(ts: seq<Token>, name: string, us: seq<Token>): seq<Token> {
    if ts == [] then []
    else (if ts[0] == Hole(name) then us else [ts[0]]) + Splice(ts[1..], name, us)
  }

  /** All holes filled at once from `env`; holes without a value stay. */
  function Fill(ts: seq<Token>, env: map<string, string>): seq<Token> {
    if ts == [] then []
    else [if ts[0].Hole? && ts[0].name in env then Lit(env[ts[0].name]) else ts[0]] + Fill(ts[1..], env)
  }

  // ---------------------------------------------------------------- one pass

  lemma CopyOne(search: string, replace: string, a: string, b: string)
    requires search != "" && a != "" && !(search <= a + b)
    ensures Replaced(search, replace, a + b) == [a[0]] + Replaced(search, replace, a[1..] + b)
  {
    assert (a + b)[1..] == a[1..] + b;
    ReplacedScan(search, replace, a + b);
  }

  lemma Prepend(a: string, b: string)
    requires a != ""
    ensures [a[0]] + (a[1..] + b) == a + b
  {
  }

  lemma {:induction false} CopyBraceFree(search: string, replace: string, a: string, b: string)
    requires search != "" && search[0] == '{'
    requires '{' !in a
    ensures Replaced(search, replace, a + b) == a + Replaced(search, replace, b)
    decreases a
  {
    if a == "" {
      assert a + b == b;
    } else {
      assert (a + b)[0] == a[0];
      CopyOne(search, replace, a, b);
      CopyBraceFree(search, replace, a[1..], b);
      Prepend(a, Replaced(search, replace, b));
    }
  }

  lemma TagPrefix(name: string, other: string, rest: string)
    requires BraceFree(name) && BraceFree(other)
    ensures Tag(name) <= Tag(other) + rest <==> name == other
  {
    var s := Tag(other) + rest;
    if Tag(name) <= s {
      var n := if |name| < |other| then |name| else |other|;
      assert Tag(name)[n + 1] == s[n + 1];
      forall i | 0 <= i < n ensures name[i] == other[i] {
        assert Tag(name)[i + 1] == s[i + 1];
      }
    }
  }

  lemma PassOverHole(name: string, value: string, other: string, rest: string)
    requires BraceFree(name) && BraceFree(other)
    ensures Replaced(Tag(name), value, Tag(other) + rest)
         == (if name == other then value else Tag(other)) + Replaced(Tag(name), value, rest)
  {
    var s := Tag(other) + rest;
    TagPrefix(name, other, rest);
    ReplacedScan(Tag(name), value, s);
    if name == other {
      Cut(Tag(name), rest);
    } else {
      assert s[1..] == (other + "}") + rest;
      CopyBraceFree(Tag(name), value, other + "}", rest);
      assert Tag(other) == ['{'] + (other + "}");
    }
  }

  lemma {:induction false} RenderConcat(a: seq<Token>, b: seq<Token>)
    ensures Render(a + b) == Render(a) + Render(b)
  {
    if a == [] {
      assert a + b == b;
    } else {
      RenderConcat(a[1..], b);
      TailOfSum(a, b);
      Assoc(Show(a[0]), Render(a[1..]), Render(b));
    }
  }

  lemma TailOfSum(a: seq<Token>, b: seq<Token>)
    requires a != []
    ensures a + b != [] && (a + b)[0] == a[0] && (a + b)[1..] == a[1..] + b
  {
  }

  lemma RenderCons(t: Token, ts: seq<Token>)
    ensures Render([t] + ts) == Show(t) + Render(ts)
  {
    assert ([t] + ts)[1..] == ts;
  }

  lemma Assoc(a: string, b: string, c: string)
    ensures a + (b + c) == (a + b) + c
  {
  }

  /** Every closing brace has an opening one before it. */
  predicate Opens(s: string) {
    forall j :: 0 <= j < |s| && s[j] == '}' ==> '{' in s[..j]
  }

  lemma OpensBehind(a: string, b: string)
    requires '}' !in a && Opens(b)
    ensures Opens(a + b)
  {
    var s := a + b;
    forall j | 0 <= j < |s| && s[j] == '}' ensures '{' in s[..j] {
      assert s[j] == b[j - |a|];
      assert s[..j] == a + b[..j - |a|];
    }
  }

  lemma {:induction false} RenderOpens(ts: seq<Token>)
    requires Tame(ts, '}')
    ensures Opens(Render(ts))
  {
    if ts != [] {
      var rest := Render(ts[1..]);
      RenderOpens(ts[1..]);
      assert TameToken(ts[0], '}');
      match ts[0]
      case Lit(text) => OpensBehind(text, rest);
      case Hole(name) => OpensFront(Tag(name) + rest);
    }
  }

  lemma OpensFront(s: string)
    requires s != "" && s[0] == '{'
    ensures Opens(s)
  {
    forall j | 0 <= j < |s| && s[j] == '}' ensures '{' in s[..j] {
      assert s[..j][0] == '{';
    }
  }

  /** A tag that starts in front of `b` would need the first closing brace of `b`, but an opening
      one stands between. */
  lemma NoTagAcross(name: string, a: string, b: string)
    requires BraceFree(name) && a != "" && '}' !in a && Opens(b)
    ensures !(Tag(name) <= a + b)
  {
    var s, j := a + b, |name| + 1;
    if j < |s| && s[j] == '}' {
      assert |a| <= j && b[j - |a|] == '}';
      var i :| 0 <= i < j - |a| && b[..j - |a|][i] == '{';
      assert s[|a| + i] == '{' != name[|a| + i - 1] == Tag(name)[|a| + i];
    } else {
      assert Tag(name)[j] == '}';
    }
  }

  lemma {:induction false} CopyUnclosed(name: string, value: string, a: string, b: string)
    requires BraceFree(name) && '}' !in a && Opens(b)
    ensures Replaced(Tag(name), value, a + b) == a + Replaced(Tag(name), value, b)
    decreases a
  {
    if a == "" {
      assert a + b == b;
    } else {
      NoTagAcross(name, a, b);
      CopyOne(Tag(name), value, a, b);
      CopyUnclosed(name, value, a[1..], b);
      Prepend(a, Replaced(Tag(name), value, b));
    }
  }

  lemma PassOverLiteral(name: string, value: string, text: string, ts: seq<Token>, c: char)
    requires BraceFree(name) && IsBrace(c) && c !in text && Tame(ts, c)
    ensures Replaced(Tag(name), value, text + Render(ts)) == text + Replaced(Tag(name), value, Render(ts))
  {
    if c == '{' {
      CopyBraceFree(Tag(name), value, text, Render(ts));
    } else {
      RenderOpens(ts);
      CopyUnclosed(name, value, text, Render(ts));
    }
  }

  /** One `str_replace` pass over a rendered template is a splice on its tokens: nothing inside
      literals, other holes or inserted text is touched. The literals may hold one kind of brace. */
  lemma {:induction false} PassIsSplice(ts: seq<Token>, name: string, us: seq<Token>, c: char)
    requires Tame(ts, c) && IsBrace(c) && BraceFree(name)
    ensures Replaced(Tag(name), Render(us), Render(ts)) == Render(Splice(ts, name, us))
    decreases ts
  {
    if ts == [] {
    } else {
      var t, rest := ts[0], Render(ts[1..]);
      PassIsSplice(ts[1..], name, us, c);
      RenderConcat(if t == Hole(name) then us else [t], Splice(ts[1..], name, us));
      assert Render([t]) == Show(t) + Render([]) == Show(t);
      assert TameToken(t, c);
      match t
      case Lit(text) => PassOverLiteral(name, Render(us), text, ts[1..], c);
      case Hole(other) => PassOverHole(name, Render(us), other, rest);
    }
  }

  // ---------------------------------------------------------------- all passes

  type Binding = (string, string)

  /** The passes in order. */
  function Passes(command: string, bindings: seq<Binding>): string
    decreases bindings
  {
    if bindings == [] then command
    else Passes(Replaced(Tag(bindings[0].0), bindings[0].1, command), bindings[1..])
  }

  lemma {:induction false} PassesConcat(command: string, a: seq<Binding>, b: seq<Binding>)
    ensures Passes(command, a + b) == Passes(Passes(command, a), b)
    decreases a
  {
    if a == [] {
      assert a + b == b;
    } else {
      assert (a + b)[1..] == a[1..] + b;
      PassesConcat(Replaced(Tag(a[0].0), a[0].1, command), a[1..], b);
    }
  }

  lemma PassesTwo(command: string, p: Binding, q: Binding)
    ensures Passes(command, [p, q]) == Replaced(Tag(q.0), q.1, Replaced(Tag(p.0), p.1, command))
  {
    PassesOne(command, p);
    PassesOne(Passes(command, [p]), q);
    PassesConcat(command, [p], [q]);
    assert [p] + [q] == [p, q];
  }

  lemma PassesOne(command: string, p: Binding)
    ensures Passes(command, [p]) == Replaced(Tag(p.0), p.1, command)
  {
    assert [p][1..] == [];
  }

  lemma PassesFour(command: string, p: Binding, q: Binding, r: Binding, t: Binding)
    ensures Passes(command, [p, q, r, t])
         == Replaced(Tag(t.0), t.1, Replaced(Tag(r.0), r.1, Replaced(Tag(q.0), q.1, Replaced(Tag(p.0), p.1, command))))
  {
    PassesTwo(command, p, q);
    PassesTwo(Passes(command, [p, q]), r, t);
    PassesConcat(command, [p, q], [r, t]);
    assert [p, q] + [r, t] == [p, q, r, t];
  }

  /** The map a list of bindings stands for: the first binding of a name counts. */
  function FirstWins(bindings: seq<Binding>): (m: map<string, string>)
    ensures forall n :: n in m ==> exists i :: 0 <= i < |bindings| && bindings[i] == (n, m[n])
  {
    if bindings == [] then map[]
    else
      var m := FirstWins(bindings[1..]);
      m[bindings[0].0 := bindings[0].1]
  }

  predicate BraceFreeNames(bindings: seq<Binding>) {
    forall i :: 0 <= i < |bindings| ==> BraceFree(bindings[i].0)
  }

  /** No value of the environment holds the brace `c`. */
  predicate Lacks(env: map<string, string>, c: char) {
    forall n :: n in env ==> c !in env[n]
  }

  /** Some value holds an opening brace and some value, the same or another, a closing one. */
  predicate MixedBraces(env: map<string, string>) {
    !Lacks(env, '{') && !Lacks(env, '}')
  }

  lemma {:induction false} FillIsTame(ts: seq<Token>, env: map<string, string>, c: char)
    requires Tame(ts, c) && Lacks(env, c)
    ensures Tame(Fill(ts, env), c)
    decreases ts
  {
    if ts != [] {
      assert TameToken(ts[0], c);
      assert forall i :: 0 <= i < |ts[1..]| ==> ts[1..][i] == ts[i + 1];
      FillIsTame(ts[1..], env, c);
    }
  }

  lemma {:induction false} SpliceKeepsForm(ts: seq<Token>, name: string, us: seq<Token>, c: char)
    requires Tame(ts, c) && Tame(us, c)
    ensures Tame(Splice(ts, name, us), c)
    decreases ts
  {
    if ts != [] {
      assert Tame(ts[1..], c);
      SpliceKeepsForm(ts[1..], name, us, c);
      var head := if ts[0] == Hole(name) then us else [ts[0]];
      assert Tame(head, c);
    }
  }

  /** Filling one more name after the others: it counts only where it had no value before. */
  lemma {:induction false} SpliceAfterFill(ts: seq<Token>, env: map<string, string>, name: string, value: string)
    ensures Splice(Fill(ts, env), name, [Lit(value)]) == Fill(ts, map[name := value] + env)
    decreases ts
  {
    if ts != [] {
      SpliceAfterFill(ts[1..], env, name, value);
      assert Fill(ts, env)[1..] == Fill(ts[1..], env);
    }
  }

  lemma FirstWinsOne(b: Binding)
    ensures FirstWins([b]) == map[b.0 := b.1]
  {
    assert [b][1..] == [];
  }

  /** Passes over a template equal one simultaneous substitution as long as one kind of brace is
      missing from the literals and from the values that count. */
  lemma {:induction false} PassesAreSimultaneous(ts: seq<Token>, bindings: seq<Binding>, c: char)
    requires Tame(ts, c) && IsBrace(c) && BraceFreeNames(bindings) && Lacks(FirstWins(bindings), c)
    ensures Passes(Render(ts), bindings) == Render(Fill(ts, FirstWins(bindings)))
    decreases |bindings|
  {
    if bindings == [] {
      FillNothing(ts);
    } else {
      var k := |bindings| - 1;
      var init, last := bindings[..k], bindings[k];
      assert bindings == init + [last];
      FirstWinsConcat(init, [last]);
      FirstWinsOne(last);
      PassesConcat(Render(ts), init, [last]);
      LacksInit(FirstWins(init), FirstWins(bindings), c);
      PassesAreSimultaneous(ts, init, c);
      LastPass(ts, FirstWins(init), last, c);
    }
  }

  lemma LacksInit(env: map<string, string>, all: map<string, string>, c: char)
    requires Lacks(all, c) && forall n :: n in env ==> n in all && all[n] == env[n]
    ensures Lacks(env, c)
  {
  }

  lemma LastPass(ts: seq<Token>, env: map<string, string>, last: Binding, c: char)
    requires Tame(ts, c) && IsBrace(c) && BraceFree(last.0) && Lacks(env, c)
    ensures Passes(Render(Fill(ts, env)), [last]) == Render(Fill(ts, map[last.0 := last.1] + env))
  {
    FillIsTame(ts, env, c);
    PassesOne(Render(Fill(ts, env)), last);
    RenderOne(Lit(last.1));
    PassIsSplice(Fill(ts, env), last.0, [Lit(last.1)], c);
    SpliceAfterFill(ts, env, last.0, last.1);
  }

  lemma {:induction false} FillNothing(ts: seq<Token>)
    ensures Fill(ts, map[]) == ts
  {
    if ts != [] { FillNothing(ts[1..]); }
  }

  // ---------------------------------------------------------------- the exact condition

  /** The law for one template: the passes are one substitution. */
  predicate Agree(ts: seq<Token>, bindings: seq<Binding>) {
    Passes(Render(ts), bindings) == Render(Fill(ts, FirstWins(bindings)))
  }

  /** The law for every template, whatever brace-free variable follows `bindings`. */
  ghost predicate LawHolds(bindings: seq<Binding>) {
    forall ts, n, x :: WellFormed(ts) && BraceFree(n) && BraceFree(x) ==> Agree(ts, bindings + [(n, x)])
  }

  /** The law holds exactly if the values that count do not hold both kinds of brace. */
  lemma SimultaneousIff(bindings: seq<Binding>)
    requires BraceFreeNames(bindings)
    ensures LawHolds(bindings) <==> !MixedBraces(FirstWins(bindings))
  {
    if MixedBraces(FirstWins(bindings)) {
      MixedValuesBreak(bindings);
    } else {
      var c := if Lacks(FirstWins(bindings), '{') then '{' else '}';
      forall ts, n, x | WellFormed(ts) && BraceFree(n) && BraceFree(x) ensures Agree(ts, bindings + [(n, x)]) {
        FirstWinsConcat(bindings, [(n, x)]);
        FirstWinsOne((n, x));
        WellFormedIsTame(ts, c);
        PassesAreSimultaneous(ts, bindings + [(n, x)], c);
      }
    }
  }

  /** For one value before the variable: it must not hold both kinds itself. */
  lemma OneValueIff(name: string, value: string)
    requires BraceFree(name)
    ensures LawHolds([(name, value)]) <==> !('{' in value && '}' in value)
  {
    SimultaneousIff([(name, value)]);
    FirstWinsOne((name, value));
    assert Lacks(map[name := value], '{') <==> '{' !in map[name := value][name];
    assert Lacks(map[name := value], '}') <==> '}' !in map[name := value][name];
  }

  /** An opening and a later closing brace enclose a tag. */
  lemma {:induction false} InnerPair(w: string, i: nat, j: nat) returns (p: nat, q: nat)
    requires i < j < |w| && w[i] == '{' && w[j] == '}'
    ensures i <= p < q <= j && w[p] == '{' && w[q] == '}' && BraceFree(w[p + 1..q])
    decreases j - i
  {
    if k :| i < k < j && w[k] == '{' {
      p, q := InnerPair(w, k, j);
    } else if k :| i < k < j && w[k] == '}' {
      p, q := InnerPair(w, i, k);
    } else {
      p, q := i, j;
    }
  }

  lemma NoEndInside(q: string, value: string, rest: string)
    requires BraceFree(value) && |q| < |value|
    ensures !(q + "}" <= value + rest)
  {
    assert (q + "}")[|q|] == '}' != value[|q|] == (value + rest)[|q|];
  }

  /** The rest of a tag behind its opening brace is not made by a pass: it was there before. */
  lemma {:induction false} PassMakesNoEnd(name: string, value: string, q: string, s: string)
    requires BraceFree(name) && BraceFree(value) && BraceFree(q) && |q| < |value|
    requires q + "}" <= Replaced(Tag(name), value, s)
    ensures q + "}" <= s
    decreases |s|
  {
    var tag, r := Tag(name), Replaced(Tag(name), value, s);
    ReplacedScan(tag, value, s);
    assert s != "";
    if tag <= s {
      NoEndInside(q, value, Replaced(tag, value, s[|tag|..]));
    } else if q == "" {
      assert s[0] == r[0] == (q + "}")[0];
    } else {
      assert r[1..] == Replaced(tag, value, s[1..]);
      assert q[1..] + "}" == (q + "}")[1..];
      assert s[0] == r[0] == q[0];
      PassMakesNoEnd(name, value, q[1..], s[1..]);
      assert q + "}" == [q[0]] + (q[1..] + "}");
    }
  }

  lemma AtBehind(a: string, b: string, p: string, i: nat)
    requires |a| <= i && At(a + b, p, i)
    ensures At(b, p, i - |a|)
  {
    assert (a + b)[i..] == b[i - |a|..];
  }

  lemma NoTagInValue(value: string, rest: string, name: string, i: nat)
    requires BraceFree(value) && At(value + rest, Tag(name), i)
    ensures |value| <= i
  {
    var s := value + rest;
    assert s[i] == s[i..][0] == Tag(name)[0] == '{';
    assert forall k :: 0 <= k < |value| ==> s[k] == value[k];
  }

  lemma NoTagInFront(name: string, value: string, s: string)
    requires BraceFree(name) && BraceFree(value) && |name| < |value|
    requires s != "" && !(Tag(name) <= s)
    ensures !At([s[0]] + Replaced(Tag(name), value, s[1..]), Tag(name), 0)
  {
    var rest := Replaced(Tag(name), value, s[1..]);
    var r := [s[0]] + rest;
    TagTail(name, r);
    assert r[1..] == rest && r[0..] == r;
    TagTail(name, s);
    if name + "}" <= rest { PassMakesNoEnd(name, value, name, s[1..]); }
  }

  /** After the pass of a name with a longer brace-free value no tag of that name is left. */
  lemma {:induction false} PassLeavesNoTag(name: string, value: string, s: string, i: nat)
    requires BraceFree(name) && BraceFree(value) && |name| < |value|
    ensures !At(Replaced(Tag(name), value, s), Tag(name), i)
    decreases |s|
  {
    var tag := Tag(name);
    ReplacedScan(tag, value, s);
    if At(Replaced(tag, value, s), tag, i) {
      if tag <= s {
        NoTagInValue(value, Replaced(tag, value, s[|tag|..]), name, i);
        AtBehind(value, Replaced(tag, value, s[|tag|..]), tag, i);
        PassLeavesNoTag(name, value, s[|tag|..], i - |value|);
      } else if s != "" && i == 0 {
        NoTagInFront(name, value, s);
      } else if s != "" {
        AtBehind([s[0]], Replaced(tag, value, s[1..]), tag, i);
        PassLeavesNoTag(name, value, s[1..], i - 1);
      }
    }
  }

  lemma TagTail(name: string, s: string)
    requires s != ""
    ensures Tag(name) <= s <==> s[0] == '{' && name + "}" <= s[1..]
  {
    assert Tag(name) == ['{'] + (name + "}");
    assert s == [s[0]] + s[1..];
  }

  /** Values with both kinds of brace make a template whose values enclose a tag, and a variable
      of that name breaks the law. */
  lemma MixedValuesBreak(bindings: seq<Binding>)
    requires BraceFreeNames(bindings) && MixedBraces(FirstWins(bindings))
    ensures !LawHolds(bindings)
  {
    var env := FirstWins(bindings);
    var a :| a in env && '{' in env[a];
    var b :| b in env && '}' in env[b];
    var p, q, name := Enclosed(env[a], env[b]);
    EnclosedNameBreaks(bindings, a, b, name, p, q);
    NamesAreBound(bindings, a, b);
  }

  lemma Enclosed(v: string, w: string) returns (p: nat, q: nat, name: string)
    requires '{' in v && '}' in w
    ensures p < q < |v + w| && BraceFree(name) && (v + w)[p..q + 1] == Tag(name)
  {
    var i :| 0 <= i < |v| && v[i] == '{';
    var j :| 0 <= j < |w| && w[j] == '}';
    p, q := InnerPair(v + w, i, |v| + j);
    name := (v + w)[p + 1..q];
    SliceIsTag(v + w, p, q);
  }

  lemma SliceIsTag(w: string, p: nat, q: nat)
    requires p < q < |w| && w[p] == '{' && w[q] == '}'
    ensures w[p..q + 1] == Tag(w[p + 1..q])
  {
    assert w[p..q + 1] == [w[p]] + w[p + 1..q] + [w[q]];
  }

  lemma EnclosedNameBreaks(bindings: seq<Binding>, a: string, b: string, name: string, p: nat, q: nat)
    requires a in FirstWins(bindings) && b in FirstWins(bindings)
    requires p < q < |FirstWins(bindings)[a] + FirstWins(bindings)[b]| && BraceFree(name)
    requires (FirstWins(bindings)[a] + FirstWins(bindings)[b])[p..q + 1] == Tag(name)
    ensures !Agree([Hole(a), Hole(b)], bindings + [(name, Filler(name))])
  {
    var command, last := Render([Hole(a), Hole(b)]), (name, Filler(name));
    FilledPair(bindings, a, b, last);
    PassesConcat(command, bindings, [last]);
    PassesOne(Passes(command, bindings), last);
    PassLeavesNoTag(name, Filler(name), Passes(command, bindings), p);
    TagBetween(FirstWins(bindings)[a] + FirstWins(bindings)[b], name, p, q);
  }

  /** A brace-free text longer than `name`. */
  function Filler(name: string): (x: string)
    ensures BraceFree(x) && |x| == |name| + 1
  {
    seq(|name| + 1, _ => 'x')
  }

  lemma TagBetween(w: string, name: string, p: nat, q: nat)
    requires p < q < |w| && w[p..q + 1] == Tag(name)
    ensures At(w, Tag(name), p)
  {
    assert w[p..] == w[p..q + 1] + w[q + 1..];
  }

  lemma NamesAreBound(bindings: seq<Binding>, a: string, b: string)
    requires BraceFreeNames(bindings) && a in FirstWins(bindings) && b in FirstWins(bindings)
    ensures WellFormed([Hole(a), Hole(b)])
  {
    var i :| 0 <= i < |bindings| && bindings[i] == (a, FirstWins(bindings)[a]);
    var j :| 0 <= j < |bindings| && bindings[j] == (b, FirstWins(bindings)[b]);
  }

  /** A variable behind the bindings does not change what the bound names `a` and `b` mean. */
  lemma FilledPair(bindings: seq<Binding>, a: string, b: string, last: Binding)
    requires a in FirstWins(bindings) && b in FirstWins(bindings)
    ensures Render(Fill([Hole(a), Hole(b)], FirstWins(bindings + [last])))
         == FirstWins(bindings)[a] + FirstWins(bindings)[b]
  {
    var ts, env := [Hole(a), Hole(b)], FirstWins(bindings + [last]);
    FirstWinsConcat(bindings, [last]);
    var va, vb := env[a], env[b];
    assert ts[1..] == [Hole(b)] && [Hole(b)][1..] == [];
    assert Fill([Hole(b)], env) == [Lit(vb)];
    assert Fill(ts, env) == [Lit(va)] + [Lit(vb)];
    RenderOne(Lit(vb));
    RenderCons(Lit(va), [Lit(vb)]);
  }

  // ---------------------------------------------------------------- the server's bindings

  /** The `Server` fields the passes read. */
  datatype Server = Server(
    uuid: string, uuidShort: string, ip: string, startCode: string,
    connectPort: nat, queryPort: nat, rconPort: nat,
    rconPassword: string, user: string, startCommand: string,
    vars: map<string, string>)

  /** The built-in passes in the order the source runs them, in groups of four. */
  function PathAndName(workPath: string, server: Server): seq<Binding> {
    [("dir", RunsHalved(workPath)), ("uuid", server.uuid), ("uuid_short", server.uuidShort), ("host", server.ip)]
  }

  function AddressAndId(serverId: nat, server: Server): seq<Binding> {
    [("ip", server.ip), ("game", server.startCode), ("id", Decimal(serverId)), ("port", Decimal(server.connectPort))]
  }

  function PortsAndUser(server: Server): seq<Binding> {
    [("query_port", Decimal(server.queryPort)), ("rcon_port", Decimal(server.rconPort)),
     ("rcon_password", server.rconPassword), ("user", server.user)]
  }

  function Builtins(workPath: string, serverId: nat, server: Server): seq<Binding> {
    PathAndName(workPath, server) + AddressAndId(serverId, server) + PortsAndUser(server)
  }

  function Pairs(order: seq<string>, m: map<string, string>): (ps: seq<Binding>)
    requires forall n :: n in order ==> n in m
    ensures |ps| == |order|
    ensures forall i :: 0 <= i < |ps| ==> ps[i] == (order[i], m[order[i]])
  {
    seq(|order|, i requires 0 <= i < |order| => (order[i], m[order[i]]))
  }

  /** An iteration order of an unordered map: every key once. */
  ghost predicate Iteration(order: seq<string>, keys: set<string>) {
    && (forall n :: n in order <==> n in keys)
    && forall i, j :: 0 <= i < j < |order| ==> order[i] != order[j]
  }

  /** Every pass in order: the built-ins, then the variables in iteration order. */
  function AllPasses(workPath: string, serverId: nat, server: Server, order: seq<string>): seq<Binding>
    requires forall n :: n in order ==> n in server.vars
  {
    Builtins(workPath, serverId, server) + Pairs(order, server.vars)
  }

  method ReplaceShortcodes(command: string, workPath: string, serverId: nat, server: Server, order: seq<string>)
    returns (r: string)
    requires Iteration(order, server.vars.Keys)
    ensures r == Passes(command, AllPasses(workPath, serverId, server, order))
  {
    var strWorkPath := FixPathSlashes(workPath);
    r := StrReplace("{dir}", strWorkPath, command);

    r := StrReplace("{uuid}", server.uuid, r);
    r := StrReplace("{uuid_short}", server.uuidShort, r);

    r := StrReplace("{host}", server.ip, r);
    ghost var afterName := r;
    r := StrReplace("{ip}", server.ip, r);
    r := StrReplace("{game}", server.startCode, r);

    r := StrReplace("{id}", Decimal(serverId), r);
    r := StrReplace("{port}", Decimal(server.connectPort), r);
    ghost var afterId := r;
    r := StrReplace("{query_port}", Decimal(server.queryPort), r);
    r := StrReplace("{rcon_port}", Decimal(server.rconPort), r);
    r := StrReplace("{rcon_password}", server.rconPassword, r);

    r := StrReplace("{user}", server.user, r);

    assert r == Passes(command, Builtins(workPath, serverId, server)) by {
      BuiltinTags();
      NamePasses(command, workPath, server);
      IdPasses(afterName, serverId, server);
      UserPasses(afterId, server);
      PassesConcat(command, PathAndName(workPath, server), AddressAndId(serverId, server));
      PassesConcat(command, PathAndName(workPath, server) + AddressAndId(serverId, server), PortsAndUser(server));
    }
    r := ReplaceVars(r, server.vars, order);
    PassesConcat(command, Builtins(workPath, serverId, server), Pairs(order, server.vars));
  }

  lemma BuiltinTags()
    ensures Tag("dir") == "{dir}" && Tag("uuid") == "{uuid}" && Tag("uuid_short") == "{uuid_short}"
    ensures Tag("host") == "{host}" && Tag("ip") == "{ip}" && Tag("game") == "{game}" && Tag("id") == "{id}"
    ensures Tag("port") == "{port}" && Tag("query_port") == "{query_port}" && Tag("rcon_port") == "{rcon_port}"
    ensures Tag("rcon_password") == "{rcon_password}" && Tag("user") == "{user}"
  {
  }

  lemma NamePasses(c: string, workPath: string, server: Server)
    ensures Passes(c, PathAndName(workPath, server))
         == Replaced(Tag("host"), server.ip, Replaced(Tag("uuid_short"), server.uuidShort,
              Replaced(Tag("uuid"), server.uuid, Replaced(Tag("dir"), RunsHalved(workPath), c))))
  {
    PassesFour(c, ("dir", RunsHalved(workPath)), ("uuid", server.uuid),
               ("uuid_short", server.uuidShort), ("host", server.ip));
  }

  lemma IdPasses(c: string, serverId: nat, server: Server)
    ensures Passes(c, AddressAndId(serverId, server))
         == Replaced(Tag("port"), Decimal(server.connectPort), Replaced(Tag("id"), Decimal(serverId),
              Replaced(Tag("game"), server.startCode, Replaced(Tag("ip"), server.ip, c))))
  {
    PassesFour(c, ("ip", server.ip), ("game", server.startCode),
               ("id", Decimal(serverId)), ("port", Decimal(server.connectPort)));
  }

  lemma UserPasses(c: string, server: Server)
    ensures Passes(c, PortsAndUser(server))
         == Replaced(Tag("user"), server.user, Replaced(Tag("rcon_password"), server.rconPassword,
              Replaced(Tag("rcon_port"), Decimal(server.rconPort),
                Replaced(Tag("query_port"), Decimal(server.queryPort), c))))
  {
    PassesFour(c, ("query_port", Decimal(server.queryPort)), ("rcon_port", Decimal(server.rconPort)),
               ("rcon_password", server.rconPassword), ("user", server.user));
  }

  /** The closing loop of `replace_shortcodes` over the server's variables. */
  method ReplaceVars(command: string, vars: map<string, string>, order: seq<string>) returns (r: string)
    requires forall n :: n in order ==> n in vars
    ensures r == Passes(command, Pairs(order, vars))
  {
    r := command;
    ghost var pairs := Pairs(order, vars);
    assert pairs[0..] == pairs;
    for i := 0 to |order|
      invariant Passes(command, pairs) == Passes(r, pairs[i..])
    {
      var name := order[i];
      r := StrReplace("{" + name + "}", vars[name], r);
      assert pairs[i..][1..] == pairs[i + 1..];
    }
  }

  /** What the shortcodes stand for: the variables, overridden by the built-ins. */
  function Environment(workPath: string, serverId: nat, server: Server): map<string, string> {
    server.vars + FirstWins(Builtins(workPath, serverId, server))
  }

  /** Built-ins first, then variables in any order: the environment is `vars` overridden by the
      built-ins, whatever the iteration order. */
  lemma EnvironmentOf(workPath: string, serverId: nat, server: Server, order: seq<string>)
    requires Iteration(order, server.vars.Keys)
    ensures FirstWins(AllPasses(workPath, serverId, server, order)) == Environment(workPath, serverId, server)
  {
    FirstWinsConcat(Builtins(workPath, serverId, server), Pairs(order, server.vars));
    PairsMean(order, server.vars);
  }

  lemma {:induction false} PairsMean(order: seq<string>, m: map<string, string>)
    requires Iteration(order, m.Keys)
    ensures FirstWins(Pairs(order, m)) == m
  {
    FirstWinsPairs(order, m);
  }

  lemma FirstWinsCons(b: Binding, bs: seq<Binding>)
    ensures FirstWins([b] + bs) == FirstWins(bs)[b.0 := b.1]
  {
    assert ([b] + bs)[1..] == bs;
  }

  lemma FirstWinsFour(p: Binding, q: Binding, r: Binding, t: Binding)
    ensures FirstWins([p, q, r, t]) == map[t.0 := t.1][r.0 := r.1][q.0 := q.1][p.0 := p.1]
  {
    FirstWinsOne(t);
    FirstWinsCons(r, [t]);
    FirstWinsCons(q, [r] + [t]);
    FirstWinsCons(p, [q] + ([r] + [t]));
    assert [p] + ([q] + ([r] + [t])) == [p, q, r, t];
  }

  lemma NamesMean(workPath: string, server: Server)
    ensures FirstWins(PathAndName(workPath, server))
         == map["dir" := RunsHalved(workPath), "uuid" := server.uuid, "uuid_short" := server.uuidShort,
                "host" := server.ip]
  {
    FirstWinsFour(("dir", RunsHalved(workPath)), ("uuid", server.uuid), ("uuid_short", server.uuidShort),
                  ("host", server.ip));
  }

  lemma IdsMean(serverId: nat, server: Server)
    ensures FirstWins(AddressAndId(serverId, server))
         == map["ip" := server.ip, "game" := server.startCode, "id" := Decimal(serverId),
                "port" := Decimal(server.connectPort)]
  {
    FirstWinsFour(("ip", server.ip), ("game", server.startCode), ("id", Decimal(serverId)),
                  ("port", Decimal(server.connectPort)));
  }

  lemma UsersMean(server: Server)
    ensures FirstWins(PortsAndUser(server))
         == map["query_port" := Decimal(server.queryPort), "rcon_port" := Decimal(server.rconPort),
                "rcon_password" := server.rconPassword, "user" := server.user]
  {
    FirstWinsFour(("query_port", Decimal(server.queryPort)), ("rcon_port", Decimal(server.rconPort)),
                  ("rcon_password", server.rconPassword), ("user", server.user));
  }

  /** What each built-in name stands for. */
  lemma BuiltinsMean(workPath: string, serverId: nat, server: Server)
    ensures FirstWins(Builtins(workPath, serverId, server))
         == map["query_port" := Decimal(server.queryPort), "rcon_port" := Decimal(server.rconPort),
                "rcon_password" := server.rconPassword, "user" := server.user]
            + (map["ip" := server.ip, "game" := server.startCode, "id" := Decimal(serverId),
                   "port" := Decimal(server.connectPort)]
               + map["dir" := RunsHalved(workPath), "uuid" := server.uuid, "uuid_short" := server.uuidShort,
                     "host" := server.ip])
  {
    NamesMean(workPath, server);
    IdsMean(serverId, server);
    UsersMean(server);
    FirstWinsConcat(PathAndName(workPath, server), AddressAndId(serverId, server));
    FirstWinsConcat(PathAndName(workPath, server) + AddressAndId(serverId, server), PortsAndUser(server));
  }

  lemma {:induction false} FirstWinsConcat(a: seq<Binding>, b: seq<Binding>)
    ensures FirstWins(a + b) == FirstWins(b) + FirstWins(a)
    decreases a
  {
    if a == [] {
      assert a + b == b;
    } else {
      FirstWinsConcat(a[1..], b);
      assert (a + b)[1..] == a[1..] + b;
      UpdateSum(FirstWins(b), FirstWins(a[1..]), a[0].0, a[0].1);
    }
  }

  lemma UpdateSum(m: map<string, string>, n: map<string, string>, k: string, v: string)
    ensures (m + n)[k := v] == m + n[k := v]
  {
  }

  lemma {:induction false} FirstWinsPairs(order: seq<string>, m: map<string, string>)
    requires forall n :: n in order ==> n in m
    ensures forall n :: n in FirstWins(Pairs(order, m)) <==> n in order
    ensures forall n :: n in order ==> FirstWins(Pairs(order, m))[n] == m[n]
    decreases order
  {
    if order != [] {
      FirstWinsPairs(order[1..], m);
      assert Pairs(order, m)[1..] == Pairs(order[1..], m);
    }
  }

  predicate BraceFreeKeys(m: map<string, string>) {
    forall n :: n in m ==> BraceFree(n)
  }

  lemma BuiltinNames(workPath: string, serverId: nat, server: Server)
    ensures BraceFreeNames(Builtins(workPath, serverId, server))
  {
    PathAndNameNames(workPath, server);
    AddressAndIdNames(serverId, server);
    PortsAndUserNames(server);
  }

  lemma PathAndNameNames(workPath: string, server: Server)
    ensures BraceFreeNames(PathAndName(workPath, server))
  {
  }

  lemma AddressAndIdNames(serverId: nat, server: Server)
    ensures BraceFreeNames(AddressAndId(serverId, server))
  {
  }

  lemma PortsAndUserNames(server: Server)
    ensures BraceFreeNames(PortsAndUser(server))
  {
  }

  lemma PassNames(workPath: string, serverId: nat, server: Server, order: seq<string>)
    requires Iteration(order, server.vars.Keys) && BraceFreeKeys(server.vars)
    ensures BraceFreeNames(AllPasses(workPath, serverId, server, order))
  {
    BuiltinNames(workPath, serverId, server);
    forall i | 0 <= i < |order| ensures BraceFree(Pairs(order, server.vars)[i].0) {
      assert order[i] in server.vars;
    }
  }

  /** One kind of brace is missing from the literals and from the values that count. */
  predicate OneKind(ts: seq<Token>, env: map<string, string>) {
    (Tame(ts, '{') && Lacks(env, '{')) || (Tame(ts, '}') && Lacks(env, '}'))
  }

  /** The law of `replace_shortcodes`: one simultaneous substitution in which built-ins hide
      equally named variables, the same for every iteration order of the variables. */
  lemma ShortcodesAreSimultaneous(ts: seq<Token>, workPath: string, serverId: nat, server: Server, order: seq<string>)
    requires Iteration(order, server.vars.Keys) && BraceFreeKeys(server.vars)
    requires OneKind(ts, Environment(workPath, serverId, server))
    ensures Passes(Render(ts), AllPasses(workPath, serverId, server, order))
         == Render(Fill(ts, Environment(workPath, serverId, server)))
  {
    var env := Environment(workPath, serverId, server);
    EnvironmentOf(workPath, serverId, server, order);
    PassNames(workPath, serverId, server, order);
    var c := if Tame(ts, '{') && Lacks(env, '{') then '{' else '}';
    PassesAreSimultaneous(ts, AllPasses(workPath, serverId, server, order), c);
  }

  predicate BraceFreeMap(m: map<string, string>) {
    forall n :: n in m ==> BraceFree(n) && BraceFree(m[n])
  }

  /** The law for one server, for every template and all brace-free variables in any order. */
  ghost predicate ServerLaw(workPath: string, serverId: nat, server: Server) {
    forall ts, vars, order :: WellFormed(ts) && BraceFreeMap(vars) && Iteration(order, vars.Keys) ==>
      Agree(ts, AllPasses(workPath, serverId, server.(vars := vars), order))
  }

  /** A server's built-in values obey the law exactly if they do not hold both kinds of brace. */
  lemma ServerLawIff(workPath: string, serverId: nat, server: Server)
    ensures ServerLaw(workPath, serverId, server)
       <==> !MixedBraces(FirstWins(Builtins(workPath, serverId, server)))
  {
    var builtins := Builtins(workPath, serverId, server);
    BuiltinNames(workPath, serverId, server);
    SimultaneousIff(builtins);
    if ServerLaw(workPath, serverId, server) {
      LawOfBuiltins(workPath, serverId, server);
    }
    if !MixedBraces(FirstWins(builtins)) {
      UnmixedServer(workPath, serverId, server);
    }
  }

  /** For a server with variables of its own, whose values may hold braces, in one iteration order:
      its passes and one more brace-free pass obey the law exactly if the values that count,
      built-in or variable, do not hold both kinds of brace. */
  lemma OwnValuesIff(workPath: string, serverId: nat, server: Server, order: seq<string>)
    requires Iteration(order, server.vars.Keys) && BraceFreeKeys(server.vars)
    ensures LawHolds(AllPasses(workPath, serverId, server, order))
       <==> !MixedBraces(Environment(workPath, serverId, server))
  {
    PassNames(workPath, serverId, server, order);
    EnvironmentOf(workPath, serverId, server, order);
    SimultaneousIff(AllPasses(workPath, serverId, server, order));
  }

  lemma LawOfBuiltins(workPath: string, serverId: nat, server: Server)
    requires ServerLaw(workPath, serverId, server)
    ensures LawHolds(Builtins(workPath, serverId, server))
  {
    forall ts, n, x | WellFormed(ts) && BraceFree(n) && BraceFree(x)
      ensures Agree(ts, Builtins(workPath, serverId, server) + [(n, x)])
    {
      OneVariable(workPath, serverId, server, n, x);
      assert Agree(ts, AllPasses(workPath, serverId, server.(vars := map[n := x]), [n]));
    }
  }

  lemma UnmixedServer(workPath: string, serverId: nat, server: Server)
    requires !MixedBraces(FirstWins(Builtins(workPath, serverId, server)))
    ensures ServerLaw(workPath, serverId, server)
  {
    forall ts, vars, order | WellFormed(ts) && BraceFreeMap(vars) && Iteration(order, vars.Keys)
      ensures Agree(ts, AllPasses(workPath, serverId, server.(vars := vars), order))
    {
      UnmixedServerAgrees(ts, workPath, serverId, server.(vars := vars), order);
    }
  }

  lemma OneVariable(workPath: string, serverId: nat, server: Server, n: string, x: string)
    requires BraceFree(n) && BraceFree(x)
    ensures BraceFreeMap(map[n := x]) && Iteration([n], map[n := x].Keys)
    ensures AllPasses(workPath, serverId, server.(vars := map[n := x]), [n])
         == Builtins(workPath, serverId, server) + [(n, x)]
  {
    assert Pairs([n], map[n := x]) == [(n, x)];
  }

  lemma UnmixedServerAgrees(ts: seq<Token>, workPath: string, serverId: nat, server: Server, order: seq<string>)
    requires WellFormed(ts) && BraceFreeMap(server.vars) && Iteration(order, server.vars.Keys)
    requires !MixedBraces(FirstWins(Builtins(workPath, serverId, server)))
    ensures Agree(ts, AllPasses(workPath, serverId, server, order))
  {
    var c := if Lacks(FirstWins(Builtins(workPath, serverId, server)), '{') then '{' else '}';
    WellFormedIsTame(ts, c);
    assert Lacks(server.vars, c);
    EnvironmentOf(workPath, serverId, server, order);
    ShortcodesAreSimultaneous(ts, workPath, serverId, server, order);
  }

  /** Passes of names the template has no hole for change nothing. */
  lemma {:induction false} PassesSkip(ts: seq<Token>, bindings: seq<Binding>)
    requires WellFormed(ts) && BraceFreeNames(bindings)
    requires forall i :: 0 <= i < |bindings| ==> Hole(bindings[i].0) !in ts
    ensures Passes(Render(ts), bindings) == Render(ts)
    decreases |bindings|
  {
    if bindings != [] {
      var (name, value) := bindings[0];
      WellFormedIsTame(ts, '{');
      RenderOne(Lit(value));
      PassIsSplice(ts, name, [Lit(value)], '{');
      SpliceNothing(ts, name, [Lit(value)]);
      PassesSkip(ts, bindings[1..]);
    }
  }

  lemma {:induction false} SpliceNothing(ts: seq<Token>, name: string, us: seq<Token>)
    requires Hole(name) !in ts
    ensures Splice(ts, name, us) == ts
  {
    if ts != [] { SpliceNothing(ts[1..], name, us); }
  }

  /** The passes of a value that is a tag and, later, of that tag's name. */
  lemma {:induction false} RescannedValue(name: string, mid: string, value: string,
                                          before: seq<Binding>, between: seq<Binding>)
    requires BraceFree(name) && BraceFree(mid)
    requires BraceFreeNames(before) && forall i :: 0 <= i < |before| ==> before[i].0 != name
    requires BraceFreeNames(between) && forall i :: 0 <= i < |between| ==> between[i].0 != mid
    ensures Passes(Tag(name), before + ([(name, Tag(mid))] + (between + [(mid, value)]))) == value
  {
    var later := between + [(mid, value)];
    PassesConcat(Tag(name), before, [(name, Tag(mid))] + later);
    RenderOne(Hole(name));
    PassesSkip([Hole(name)], before);
    PassesConcat(Tag(name), [(name, Tag(mid))], later);
    WholeTag(name, Tag(mid));
    PassesConcat(Tag(mid), between, [(mid, value)]);
    RenderOne(Hole(mid));
    PassesSkip([Hole(mid)], between);
    WholeTag(mid, value);
  }

  lemma WholeTag(name: string, value: string)
    requires BraceFree(name)
    ensures Passes(Tag(name), [(name, value)]) == value
  {
    PassesOne(Tag(name), (name, value));
    PassOverHole(name, value, name, "");
    assert Tag(name) + "" == Tag(name);
  }

  /** A server that breaks the law: its uuid holds the tag of its one variable, so the value put
      in for `{uuid}` is itself replaced. */
  lemma BracedValueIsRescanned(workPath: string, serverId: nat, server: Server)
    requires server.uuid == "{map}" && server.vars == map["map" := "dust"]
    ensures Passes("{uuid}", AllPasses(workPath, serverId, server, ["map"])) == "dust"
    ensures Render(Fill([Hole("uuid")], Environment(workPath, serverId, server))) == "{map}"
  {
    UuidIsRescanned(workPath, serverId, server);
    UuidMeans(workPath, serverId, server);
    RenderOne(Lit("{map}"));
    assert Fill([Hole("uuid")], Environment(workPath, serverId, server)) == [Lit("{map}")];
  }

  lemma UuidIsRescanned(workPath: string, serverId: nat, server: Server)
    requires server.uuid == "{map}" && server.vars == map["map" := "dust"]
    ensures Passes("{uuid}", AllPasses(workPath, serverId, server, ["map"])) == "dust"
  {
    var before: seq<Binding> := [("dir", RunsHalved(workPath))];
    var between := BehindUuid(serverId, server);
    var last: Binding := ("map", "dust");
    assert Tag("uuid") == "{uuid}" && Tag("map") == "{map}";
    BetweenNames(serverId, server);
    RescannedValue("uuid", "map", "dust", before, between);
    SplitAtUuid(workPath, serverId, server);
    assert Pairs(["map"], server.vars) == [last];
    assert AllPasses(workPath, serverId, server, ["map"]) == before + ([("uuid", "{map}")] + (between + [last]));
  }

  /** The built-in passes after that of `{uuid}`. */
  function BehindUuid(serverId: nat, server: Server): seq<Binding> {
    [("uuid_short", server.uuidShort), ("host", server.ip)] + AddressAndId(serverId, server) + PortsAndUser(server)
  }

  lemma SplitAtUuid(workPath: string, serverId: nat, server: Server)
    ensures Builtins(workPath, serverId, server)
         == [("dir", RunsHalved(workPath))] + ([("uuid", server.uuid)] + BehindUuid(serverId, server))
  {
  }

  lemma BetweenNames(serverId: nat, server: Server)
    ensures BraceFreeNames(BehindUuid(serverId, server))
    ensures forall i :: 0 <= i < |BehindUuid(serverId, server)| ==> BehindUuid(serverId, server)[i].0 != "map"
  {
    AddressAndIdNames(serverId, server);
    PortsAndUserNames(server);
    NotMap(serverId, server);
  }

  lemma NotMap(serverId: nat, server: Server)
    ensures forall i :: 0 <= i < |BehindUuid(serverId, server)| ==> BehindUuid(serverId, server)[i].0 != "map"
  {
  }

  lemma UuidMeans(workPath: string, serverId: nat, server: Server)
    ensures "uuid" in Environment(workPath, serverId, server)
    ensures Environment(workPath, serverId, server)["uuid"] == server.uuid
  {
    SplitAtUuid(workPath, serverId, server);
    var rest := [("uuid", server.uuid)] + BehindUuid(serverId, server);
    FirstWinsConcat([("dir", RunsHalved(workPath))], rest);
    FirstWinsConcat([("uuid", server.uuid)], BehindUuid(serverId, server));
    FirstWinsOne(("dir", RunsHalved(workPath)));
    FirstWinsOne(("uuid", server.uuid));
  }

  /** The command line `start` builds: `{command}` is expanded first, then the shortcodes. */
  method StartCommandLine(script: string, workPath: string, serverId: nat, server: Server, order: seq<string>)
    returns (r: string)
    requires Iteration(order, server.vars.Keys)
    ensures r == Passes(Replaced("{command}", server.startCommand, script),
                        AllPasses(workPath, serverId, server, order))
  {
    var command := StrReplace("{command}", server.startCommand, script);
    r := ReplaceShortcodes(command, workPath, serverId, server, order);
  }

  /** Shortcodes inside the start command are filled as well: the whole is one substitution in
      the script template with the start command's own template spliced in. */
  lemma StartCommandIsTemplate(ts: seq<Token>, us: seq<Token>, workPath: string, serverId: nat, server: Server,
                               order: seq<string>)
    requires Iteration(order, server.vars.Keys) && BraceFreeKeys(server.vars)
    requires server.startCommand == Render(us)
    requires OneKind(ts + us, Environment(workPath, serverId, server))
    ensures Passes(Replaced("{command}", server.startCommand, Render(ts)), AllPasses(workPath, serverId, server, order))
         == Render(Fill(Splice(ts, "command", us), Environment(workPath, serverId, server)))
  {
    var c := if Tame(ts + us, '{') && Lacks(Environment(workPath, serverId, server), '{') then '{' else '}';
    TameParts(ts, us, c);
    CommandExpands(ts, us, c);
    SpliceKeepsForm(ts, "command", us, c);
    ShortcodesAreSimultaneous(Splice(ts, "command", us), workPath, serverId, server, order);
  }

  lemma TameParts(ts: seq<Token>, us: seq<Token>, c: char)
    requires Tame(ts + us, c)
    ensures Tame(ts, c) && Tame(us, c)
  {
    forall i | 0 <= i < |ts| ensures TameToken(ts[i], c) {
      assert (ts + us)[i] == ts[i];
    }
    forall i | 0 <= i < |us| ensures TameToken(us[i], c) {
      assert (ts + us)[|ts| + i] == us[i];
    }
  }

  lemma CommandExpands(ts: seq<Token>, us: seq<Token>, c: char)
    requires Tame(ts, c) && IsBrace(c)
    ensures Replaced("{command}", Render(us), Render(ts)) == Render(Splice(ts, "command", us))
  {
    assert Tag("command") == "{command}";
    PassIsSplice(ts, "command", us, c);
  }

  lemma RenderOne(t: Token)
    ensures Render([t]) == Show(t)
  {
    assert Render([t]) == Show(t) + Render([t][1..]);
    assert Show(t) + "" == Show(t);
  }
}
