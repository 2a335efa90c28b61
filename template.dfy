/** Python's `string.Template` with its default pattern, as the engine uses
    it: the scanner (`pattern.finditer`), `get_identifiers` (the back-patch
    in util.py) and `safe_substitute`.

    The default pattern, compiled with IGNORECASE and ASCII identifiers,
    matches at every `$` and tries its alternatives in order:
      `$$`              escaped
      `$name`           named  (name = [_A-Za-z][_A-Za-z0-9]*, longest)
      `${name}`         braced
      `$`               invalid (the empty group after a lone `$`)
    Text between matches is literal. */
module Template {
  import opened Wrappers
  import opened Seqs

  predicate IsIdentStart(c: char) {
    c == '_' || 'A' <= c <= 'Z' || 'a' <= c <= 'z'
  }

  predicate IsIdentChar(c: char) {
    IsIdentStart(c) || '0' <= c <= '9'
  }

  predicate IsIdentifier(s: string) {
    s != [] && IsIdentStart(s[0]) && forall i :: 0 < i < |s| ==> IsIdentChar(s[i])
  }

  /** The longest prefix of `s` made of identifier characters. */
  function IdentChars(s: string): (r: string)
    ensures IsPrefix(r, s)
    ensures forall i :: 0 <= i < |r| ==> IsIdentChar(r[i])
    ensures |r| < |s| ==> !IsIdentChar(s[|r|])
  {
    if s == [] || !IsIdentChar(s[0]) then [] else [s[0]] + IdentChars(s[1..])
  }

  /** The identifier at the head of `s` (the longest match), or empty if none. */
  function IdentAt(s: string): (r: string)
    ensures r == [] <==> s == [] || !IsIdentStart(s[0])
    ensures r == [] || IsIdentifier(r)
    ensures IsPrefix(r, s)
    ensures r != [] ==> |r| == |s| || !IsIdentChar(s[|r|])
  {
    if s != [] && IsIdentStart(s[0]) then IdentChars(s) else []
  }

  /** One match of the pattern: `text` is group 0, and a group is None when it
      did not take part in the match. */
  datatype Match = Match(
    text: string,
    named: Option<string>,
    braced: Option<string>,
    escaped: Option<string>,
    invalid: Option<string>)

  /** Exactly one of the four groups took part. */
  predicate OneGroup(m: Match) {
    (if m.named.Some? then 1 else 0) + (if m.braced.Some? then 1 else 0)
    + (if m.escaped.Some? then 1 else 0) + (if m.invalid.Some? then 1 else 0) == 1
  }

  /** The match of the pattern at a `$`. */
  function MatchAt(t: string): (m: Match)
    requires |t| > 0 && t[0] == '$'
    ensures 1 <= |m.text| <= |t| && m.text == t[..|m.text|]
    ensures OneGroup(m)
    ensures m.named.Some? ==> IsIdentifier(m.named.value) && m.text == "$" + m.named.value
    ensures m.braced.Some? ==> IsIdentifier(m.braced.value) && m.text == "${" + m.braced.value + "}"
    ensures m.escaped.Some? ==> m.text == "$$"
    ensures m.invalid.Some? ==> m.text == "$"
    ensures m.escaped.Some? <==> |t| > 1 && t[1] == '$'
    ensures m.named.Some? <==> |t| > 1 && IsIdentStart(t[1])
    ensures m.named.Some? ==> |m.text| == |t| || !IsIdentChar(t[|m.text|])
    ensures m.braced.Some? <==> |t| > 1 && BracedAt(t[1..]).Some?
    ensures m.braced.Some? ==> m.braced == BracedAt(t[1..])
    ensures m.invalid.Some? <==> |t| == 1 || (t[1] != '$' && !IsIdentStart(t[1]) && BracedAt(t[1..]).None?)
  {
    var rest := t[1..];
    var id := IdentAt(rest);
    var braced := BracedAt(rest);
    assert rest != [] ==> rest[0] == t[1];
    if rest != [] && rest[0] == '$' then
      assert t[..2] == "$$";
      Match("$$", None, None, Some("$"), None)
    else if id != [] then
      assert t == "$" + rest;
      assert |id| < |rest| ==> t[|id| + 1] == rest[|id|];
      Match("$" + id, Some(id), None, None, None)
    else if braced.Some? then
      assert t == "$" + rest;
      Match("${" + braced.value + "}", None, Some(braced.value), None, None)
    else
      assert rest == [] || (t[1] != '$' && !IsIdentStart(t[1]) && braced.None?);
      Match("$", None, None, None, Some(""))
  }

  /** `{name}` at the head of `s`: the name, or None when `s` does not start
      with an identifier in braces. */
  function BracedAt(s: string): (r: Option<string>)
    ensures r.Some? ==> IsIdentifier(r.value) && IsPrefix("{" + r.value + "}", s)
    ensures r.None? ==> forall k :: 1 < k < |s| && s[k] == '}' ==> !(s[0] == '{' && IsIdentifier(s[1..k]))
  {
    if s == [] || s[0] != '{' then None
    else
      var inner := IdentAt(s[1..]);
      if inner != [] && |inner| + 1 < |s| && s[|inner| + 1] == '}' then
        assert s[..|inner| + 2] == "{" + inner + "}";
        Some(inner)
      else
        NoBracedName(s);
        None
  }

  /** An identifier that runs up to a non-identifier character is the one
      `IdentAt` finds. */
  lemma IdentRunIsIdentAt(u: string, k: nat)
    requires k < |u| && IsIdentifier(u[..k]) && !IsIdentChar(u[k])
    ensures IdentAt(u) == u[..k]
  {
    assert u[..k][0] == u[0];
  }

  lemma NoBracedName(s: string)
    requires s != [] && s[0] == '{'
    requires var inner := IdentAt(s[1..]); !(inner != [] && |inner| + 1 < |s| && s[|inner| + 1] == '}')
    ensures forall k :: 1 < k < |s| && s[k] == '}' ==> !IsIdentifier(s[1..k])
  {
    forall k | 1 < k < |s| && s[k] == '}' && IsIdentifier(s[1..k]) ensures false {
      var u := s[1..];
      assert u[..k - 1] == s[1..k] && u[k - 1] == s[k];
      IdentRunIsIdentAt(u, k - 1);
    }
  }

  /** `pattern.finditer(template)`: the matches, left to right, each scan
      resuming after the previous match. */
  function FindIter(t: string): seq<Match>
    decreases |t|
  {
    if t == [] then []
    else if t[0] != '$' then FindIter(t[1..])
    else [MatchAt(t)] + FindIter(t[|MatchAt(t).text|..])
  }

  /** Python's `a or b` on two optional groups. */
  function Or(a: Option<string>, b: Option<string>): Option<string> {
    if a.Some? && a.value != "" then a else b
  }

  /** The name a match contributes: its named or braced group. */
  function NameOf(m: Match): seq<string> {
    var n := Or(m.named, m.braced);
    if n.Some? then [n.value] else []
  }

  function Names(ms: seq<Match>): seq<string> {
    if ms == [] then [] else NameOf(ms[0]) + Names(ms[1..])
  }

  /** The identifiers of a template: the distinct names in order of first occurrence. */
  function Identifiers(t: string): seq<string> {
    Dedup(Names(FindIter(t)))
  }

  /** `safe_substitute`'s replacement for one match. */
  function Convert(m: Match, env: map<string, string>): string {
    var named := Or(m.named, m.braced);
    if named.Some? then
      if named.value in env then env[named.value] else m.text
    else if m.escaped.Some? then "$"
    else m.text
  }

  /** `safe_substitute(env)`: every identifier with a value in `env` is replaced
      by it, `$$` becomes `$`, and everything else is kept as written. */
  function SafeSubstitute(t: string, env: map<string, string>): string
    decreases |t|
  {
    if t == [] then ""
    else if t[0] != '$' then [t[0]] + SafeSubstitute(t[1..], env)
    else Convert(MatchAt(t), env) + SafeSubstitute(t[|MatchAt(t).text|..], env)
  }

  /** Every match the scanner produces sets exactly one group, and a named or
      braced group holds an identifier. */
  predicate WellFormed(m: Match) {
    && OneGroup(m)
    && (m.named.Some? ==> IsIdentifier(m.named.value))
    && (m.braced.Some? ==> IsIdentifier(m.braced.value))
  }

  /** The back-patched `Template.get_identifiers`: one pass over the matches,
      appending a name the first time it is seen. Its ValueError branch (a
      match in which no expected group took part) is unreachable. */
  method GetIdentifiers(t: string) returns (ids: seq<string>)
    ensures ids == Identifiers(t)
  {
    ids := [];
    var matches := FindIter(t);
    FindIterWellFormed(t);
    for i := 0 to |matches|
      invariant ids == Dedup(Names(matches[..i]))
    {
      var mo := matches[i];
      assert mo in matches;
      var named := Or(mo.named, mo.braced);
      NamesStep(matches, i);
      if named.Some? && named.value !in ids {
        ids := ids + [named.value];
      } else if named.None? && mo.invalid.None? && mo.escaped.None? {
        assert false;
      }
    }
    assert matches[..|matches|] == matches;
  }

  /** One more match adds its name, unless it was already listed. */
  lemma NamesStep(ms: seq<Match>, i: nat)
    requires i < |ms|
    ensures var n := Or(ms[i].named, ms[i].braced); var d := Dedup(Names(ms[..i]));
      Dedup(Names(ms[..i + 1])) == if n.Some? && n.value !in d then d + [n.value] else d
  {
    var mo := ms[i];
    NamesConcat(ms[..i], [mo]);
    assert ms[..i + 1] == ms[..i] + [mo];
    assert [mo][1..] == [];
    var ns := Names(ms[..i]);
    assert Names(ms[..i + 1]) == ns + NameOf(mo);
    if NameOf(mo) == [] {
      assert ns + [] == ns;
    } else {
      var s := ns + NameOf(mo);
      assert s[..|s| - 1] == ns;
    }
  }

  lemma {:induction false} NamesConcat(a: seq<Match>, b: seq<Match>)
    ensures Names(a + b) == Names(a) + Names(b)
  {
    if a != [] {
      assert (a + b)[0] == a[0];
      assert (a + b)[1..] == a[1..] + b;
      NamesConcat(a[1..], b);
    } else {
      assert a + b == b;
    }
  }

  lemma {:induction false} FindIterWellFormed(t: string)
    ensures forall m :: m in FindIter(t) ==> WellFormed(m)
    decreases |t|
  {
    if t != [] {
      if t[0] != '$' {
        FindIterWellFormed(t[1..]);
      } else {
        FindIterWellFormed(t[|MatchAt(t).text|..]);
      }
    }
  }

  // ---------------------------------------------------------------------
  // Properties of identifier extraction

  /** The identifiers are distinct, are exactly the names the matches carry,
      and are listed in the order in which each first occurs. */
  lemma IdentifiersDistinctInOrder(t: string)
    ensures NoDuplicates(Identifiers(t))
    ensures forall n :: n in Identifiers(t) <==> n in Names(FindIter(t))
    ensures forall i, j :: 0 <= i < j < |Identifiers(t)| ==>
      FirstIndex(Names(FindIter(t)), Identifiers(t)[i]) < FirstIndex(Names(FindIter(t)), Identifiers(t)[j])
  {
    DedupNoDuplicates(Names(FindIter(t)));
    DedupMembers(Names(FindIter(t)));
    DedupOrder(Names(FindIter(t)));
  }

  /** `w` occurs in `t` as a contiguous piece. */
  predicate Occurs(w: string, t: string)
    decreases |t|
  {
    IsPrefix(w, t) || (t != [] && Occurs(w, t[1..]))
  }

  lemma {:induction false} OccursInSuffix(w: string, t: string, k: nat)
    requires k <= |t| && Occurs(w, t[k..])
    ensures Occurs(w, t)
  {
    if k > 0 {
      assert t[1..][k - 1..] == t[k..];
      OccursInSuffix(w, t[1..], k - 1);
    }
  }

  /** Every match is a piece of the template. */
  lemma {:induction false} FindIterOccurs(t: string)
    ensures forall m :: m in FindIter(t) ==> Occurs(m.text, t)
    decreases |t|
  {
    if t != [] {
      var k := if t[0] != '$' then 1 else |MatchAt(t).text|;
      FindIterOccurs(t[k..]);
      forall m | m in FindIter(t[k..]) ensures Occurs(m.text, t) {
        OccursInSuffix(m.text, t, k);
      }
    }
  }

  lemma {:induction false} NamesFrom(ms: seq<Match>)
    ensures forall n :: n in Names(ms) ==> exists m :: m in ms && NameOf(m) == [n]
  {
    if ms != [] {
      NamesFrom(ms[1..]);
      forall n | n in Names(ms) ensures exists m :: m in ms && NameOf(m) == [n] {
        if n in NameOf(ms[0]) {
          assert ms[0] in ms && NameOf(ms[0]) == [n];
        } else {
          var m :| m in ms[1..] && NameOf(m) == [n];
          assert m in ms;
        }
      }
    }
  }

  /** Every identifier is a valid name that stands in the template right after
      a `$`, or between `${` and `}`. */
  lemma IdentifierSyntax(t: string)
    ensures forall n :: n in Identifiers(t) ==>
      IsIdentifier(n) && (Occurs("$" + n, t) || Occurs("${" + n + "}", t))
  {
    IdentifiersDistinctInOrder(t);
    NamesFrom(FindIter(t));
    FindIterWellFormed(t);
    FindIterOccurs(t);
    forall n | n in Identifiers(t)
      ensures IsIdentifier(n) && (Occurs("$" + n, t) || Occurs("${" + n + "}", t))
    {
      var m :| m in FindIter(t) && NameOf(m) == [n];
      MatchShape(t, m);
    }
  }

  /** The text of a match is `$name` or `${name}` for the name it carries. */
  lemma {:induction false} MatchShape(t: string, m: Match)
    requires m in FindIter(t)
    ensures m.named.Some? ==> m.text == "$" + m.named.value
    ensures m.braced.Some? ==> m.text == "${" + m.braced.value + "}"
    decreases |t|
  {
    if t != [] {
      if t[0] != '$' {
        MatchShape(t[1..], m);
      } else if m != MatchAt(t) {
        MatchShape(t[|MatchAt(t).text|..], m);
      }
    }
  }

  /** `$name` and `${name}` both contribute `name`. */
  lemma DollarAndBracedForms(n: string)
    requires IsIdentifier(n)
    ensures Identifiers("$" + n) == [n]
    ensures Identifiers("${" + n + "}") == [n]
  {
    assert Dedup([n]) == [n] by { assert [n][..0] == []; }
    DollarMatch(n);
    WholeMatch("$" + n, map[]);
    assert Names(FindIter("$" + n)) == [n];
    BracedMatch(n);
    WholeMatch("${" + n + "}", map[]);
    assert Names(FindIter("${" + n + "}")) == [n];
  }

  /** A template that is just `$name` or `${name}` becomes the value of
      `name` when the mapping has one, and is kept as written otherwise. */
  lemma SingleSubstitution(n: string, env: map<string, string>)
    requires IsIdentifier(n)
    ensures SafeSubstitute("$" + n, env) == if n in env then env[n] else "$" + n
    ensures SafeSubstitute("${" + n + "}", env) == if n in env then env[n] else "${" + n + "}"
  {
    DollarMatch(n);
    WholeMatch("$" + n, env);
    BracedMatch(n);
    WholeMatch("${" + n + "}", env);
  }

  /** The pattern matches all of `$name` as a named group. */
  lemma DollarMatch(n: string)
    requires IsIdentifier(n)
    ensures MatchAt("$" + n) == Match("$" + n, Some(n), None, None, None)
  {
    assert ("$" + n)[1..] == n;
    IdentCharsWhole(n);
  }

  /** The pattern matches all of `${name}` as a braced group. */
  lemma BracedMatch(n: string)
    requires IsIdentifier(n)
    ensures MatchAt("${" + n + "}") == Match("${" + n + "}", None, Some(n), None, None)
  {
    var t := "${" + n + "}";
    var rest := t[1..];
    assert rest == "{" + n + "}" && rest[1..] == n + "}";
    IdentCharsThenBrace(n);
    assert BracedAt(rest) == Some(n);
  }

  /** A template that is one match is scanned as that match alone, and
      substitutes to that match's replacement. */
  lemma WholeMatch(t: string, env: map<string, string>)
    requires |t| > 0 && t[0] == '$' && MatchAt(t).text == t
    ensures FindIter(t) == [MatchAt(t)]
    ensures SafeSubstitute(t, env) == Convert(MatchAt(t), env)
  {
    assert t[|t|..] == [];
    assert Convert(MatchAt(t), env) + "" == Convert(MatchAt(t), env);
  }

  lemma {:induction false} IdentCharsWhole(n: string)
    requires forall i :: 0 <= i < |n| ==> IsIdentChar(n[i])
    ensures IdentChars(n) == n
  {
    if n != [] {
      IdentCharsWhole(n[1..]);
    }
  }

  lemma {:induction false} IdentCharsThenBrace(n: string)
    requires forall i :: 0 <= i < |n| ==> IsIdentChar(n[i])
    ensures IdentChars(n + "}") == n
  {
    if n != [] {
      assert (n + "}")[1..] == n[1..] + "}";
      IdentCharsThenBrace(n[1..]);
    } else {
      assert n + "}" == "}";
    }
  }

  // ---------------------------------------------------------------------
  // Properties of substitution

  /** A template without `$` has no identifiers and substitutes to itself. */
  lemma {:induction false} NoDelimiterUnchanged(t: string, env: map<string, string>)
    requires '$' !in t
    ensures FindIter(t) == [] && Identifiers(t) == []
    ensures SafeSubstitute(t, env) == t
    decreases |t|
  {
    if t != [] {
      assert '$' !in t[1..];
      NoDelimiterUnchanged(t[1..], env);
    }
  }

  /** The template that stands for the literal text `s`: every `$` doubled. */
  function Escape(s: string): string {
    if s == [] then []
    else (if s[0] == '$' then "$$" else [s[0]]) + Escape(s[1..])
  }

  /** Escaping is undone by substitution, whatever the environment, and an
      escaped text has no identifiers; in particular a template made only of
      `$$` yields `$`s and no identifiers. */
  lemma {:induction false} EscapeRoundTrip(s: string, env: map<string, string>)
    ensures SafeSubstitute(Escape(s), env) == s
    ensures Names(FindIter(Escape(s))) == [] && Identifiers(Escape(s)) == []
  {
    if s != [] {
      var e := Escape(s);
      EscapeRoundTrip(s[1..], env);
      if s[0] == '$' {
        assert e == "$$" + Escape(s[1..]);
        assert MatchAt(e).escaped.Some?;
        assert e[2..] == Escape(s[1..]);
      } else {
        assert e == [s[0]] + Escape(s[1..]);
        assert e[1..] == Escape(s[1..]);
      }
      assert s == [s[0]] + s[1..];
    }
  }

  /** Two environments that agree on the names in `names`. */
  predicate AgreeOn(env1: map<string, string>, env2: map<string, string>, names: seq<string>) {
    forall n :: n in names ==> (n in env1 <==> n in env2) && (n in env1 ==> env1[n] == env2[n])
  }

  /** Substitution reads the environment only at the template's identifiers,
      so resolving just those names (as `process_input_item` does) loses nothing. */
  lemma SubstituteReadsIdentifiersOnly(t: string, env1: map<string, string>, env2: map<string, string>)
    requires AgreeOn(env1, env2, Identifiers(t))
    ensures SafeSubstitute(t, env1) == SafeSubstitute(t, env2)
  {
    IdentifiersDistinctInOrder(t);
    SubstituteLocal(t, env1, env2);
  }

  lemma {:induction false} SubstituteLocal(t: string, env1: map<string, string>, env2: map<string, string>)
    requires AgreeOn(env1, env2, Names(FindIter(t)))
    ensures SafeSubstitute(t, env1) == SafeSubstitute(t, env2)
    decreases |t|
  {
    if t != [] {
      if t[0] != '$' {
        SubstituteLocal(t[1..], env1, env2);
      } else {
        var m := MatchAt(t);
        var rest := t[|m.text|..];
        assert FindIter(t) == [m] + FindIter(rest);
        assert Names(FindIter(t)) == NameOf(m) + Names(FindIter(rest)) by {
          assert ([m] + FindIter(rest))[1..] == FindIter(rest);
        }
        SubstituteLocal(rest, env1, env2);
      }
    }
  }
}
