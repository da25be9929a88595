/** Placeholders in exported definitions and their replacement on import (crates/cocli-api/src/mcp_http.rs). */
module Rebind {
  import opened Prelude

  const OPEN: string := "{{rebind:"
  const CLOSE: string := "}}"

  /** `str::find`: the first position at which `pattern` occurs. */
  function Find(s: string, pattern: string): (r: Option<nat>)
    requires pattern != []
    ensures r.Some? ==> r.value + |pattern| <= |s|
  {
    if |s| < |pattern| then None
    else if s[..|pattern|] == pattern then Some(0)
    else Shift(1, Find(s[1..], pattern))
  }

  function Shift(k: nat, at: Option<nat>): Option<nat> {
    if at.Some? then Some(k + at.value) else None
  }

  /** `str::replace`: all non-overlapping occurrences, from the left. */
  function ReplaceAll(s: string, pattern: string, sub: string): string
    requires pattern != []
    decreases |s|
  {
    if |s| < |pattern| then s
    else if s[..|pattern|] == pattern then sub + ReplaceAll(s[|pattern|..], pattern, sub)
    else [s[0]] + ReplaceAll(s[1..], pattern, sub)
  }

  /** The keys of the placeholders in a value, as the scanner meets them. */
  function Placeholders(rest: string): seq<string>
    decreases |rest|
  {
    match Find(rest, OPEN)
    case None => []
    case Some(start) => KeysAfter(rest[start + |OPEN|..])
  }

  /** The scan from behind an opening mark. */
  function KeysAfter(afterStart: string): seq<string>
    decreases |afterStart|
  {
    match Find(afterStart, CLOSE)
    case None => []
    case Some(end) => [afterStart[..end]] + Placeholders(afterStart[end + 2..])
  }

  /** One round of the scan, after the keys found so far. */
  lemma ScanStep(keys: seq<string>, rest: string)
    requires Find(rest, OPEN).Some? && Find(rest[Find(rest, OPEN).value + |OPEN|..], CLOSE).Some?
    ensures
      var afterStart := rest[Find(rest, OPEN).value + |OPEN|..];
      var end := Find(afterStart, CLOSE).value;
      keys + Placeholders(rest) == keys + [afterStart[..end]] + Placeholders(afterStart[end + 2..])
  {
  }

  method RebindPlaceholders(value: string) returns (keys: seq<string>)
    ensures keys == Placeholders(value)
  {
    keys := [];
    var rest := value;
    while true
      invariant keys + Placeholders(rest) == Placeholders(value)
      decreases |rest|
    {
      var start := Find(rest, OPEN);
      if start.None? {
        return;
      }
      var afterStart := rest[start.value + |OPEN|..];
      var end := Find(afterStart, CLOSE);
      if end.None? {
        return;
      }
      ScanStep(keys, rest);
      keys := keys + [afterStart[..end.value]];
      rest := afterStart[end.value + 2..];
    }
  }

  function Placeholder(key: string): string {
    OPEN + key + CLOSE
  }

  /** The replacements one after the other, each on the outcome of the one before. */
  function ReplaceKeys(next: string, keys: seq<string>, replacements: map<string, string>): Option<string>
    decreases |keys|
  {
    if keys == [] then Some(next)
    else if keys[0] !in replacements then None
    else ReplaceKeys(ReplaceAll(next, Placeholder(keys[0]), replacements[keys[0]]), keys[1..], replacements)
  }

  function ReplacePlaceholders(value: string, replacements: map<string, string>): Option<string> {
    ReplaceKeys(value, Placeholders(value), replacements)
  }

  method ReplaceRebindPlaceholders(value: string, replacements: map<string, string>) returns (r: Option<string>)
    ensures r == ReplacePlaceholders(value, replacements)
  {
    var next := value;
    var keys := RebindPlaceholders(value);
    for i := 0 to |keys|
      invariant ReplaceKeys(next, keys[i..], replacements) == ReplacePlaceholders(value, replacements)
    {
      assert keys[i..][0] == keys[i] && keys[i..][1..] == keys[i + 1..];
      if keys[i] !in replacements {
        return None;
      }
      next := ReplaceAll(next, Placeholder(keys[i]), replacements[keys[i]]);
    }
    return Some(next);
  }

  /** Replacement fails exactly for a key that is not bound. */
  lemma {:induction false} ReplaceKeysSucceeds(next: string, keys: seq<string>, replacements: map<string, string>)
    ensures ReplaceKeys(next, keys, replacements).Some? <==> forall k :: k in keys ==> k in replacements
    decreases |keys|
  {
    if keys != [] {
      assert keys == [keys[0]] + keys[1..];
      if keys[0] in replacements {
        ReplaceKeysSucceeds(ReplaceAll(next, Placeholder(keys[0]), replacements[keys[0]]), keys[1..], replacements);
      } else {
        assert keys[0] in keys;
      }
    }
  }

  // ---- Values made of text and placeholders ---------------------------------------------------

  datatype Token = Text(text: string) | Hole(key: string)

  predicate BraceFree(s: string) {
    '{' !in s && '}' !in s
  }

  /** The opening mark neither occurs in the text nor begins at its end: `{{.Name}}` is tame, a placeholder
      is not. */
  predicate Tame(s: string) {
    forall i :: 0 <= i < |s| ==> !(OPEN <= s[i..]) && !(s[i..] <= OPEN)
  }

  predicate WellFormedToken(t: Token) {
    if t.Text? then Tame(t.text) else BraceFree(t.key)
  }

  predicate WellFormed(tokens: seq<Token>) {
    forall i :: 0 <= i < |tokens| ==> WellFormedToken(tokens[i])
  }

  function RenderToken(t: Token): string {
    if t.Text? then t.text else Placeholder(t.key)
  }

  function Render(tokens: seq<Token>): string {
    if tokens == [] then "" else RenderToken(tokens[0]) + Render(tokens[1..])
  }

  function Keys(tokens: seq<Token>): seq<string> {
    if tokens == [] then []
    else (if tokens[0].Hole? then [tokens[0].key] else []) + Keys(tokens[1..])
  }

  /** One pass over the value: every placeholder in `keys` replaced by its binding. */
  function BindKeys(tokens: seq<Token>, keys: set<string>, m: map<string, string>): (r: seq<Token>)
    requires keys <= m.Keys
    ensures |r| == |tokens|
  {
    if tokens == [] then []
    else
      [if tokens[0].Hole? && tokens[0].key in keys then Text(m[tokens[0].key]) else tokens[0]]
      + BindKeys(tokens[1..], keys, m)
  }

  function KeySet(keys: seq<string>): set<string> {
    set k | k in keys
  }

  function Substitute(tokens: seq<Token>, m: map<string, string>): string
    requires KeySet(Keys(tokens)) <= m.Keys
  {
    Render(BindKeys(tokens, KeySet(Keys(tokens)), m))
  }

  // ---- Scanning ---------------------------------------------------------------------------------

  lemma FindMisses(s: string, pattern: string)
    requires pattern != [] && s != [] && !(pattern <= s)
    ensures Find(s, pattern) == Shift(1, Find(s[1..], pattern))
  {
    if |s| >= |pattern| {
      assert s[..|pattern|] != pattern;
    }
  }

  /** A pattern is not found inside text without its first character. */
  lemma {:induction false} FindSkips(u: string, v: string, pattern: string)
    requires pattern != [] && pattern[0] !in u
    ensures Find(u + v, pattern) == Shift(|u|, Find(v, pattern))
  {
    if u == [] {
      assert u + v == v;
    } else {
      assert (u + v)[0] == u[0];
      FindMisses(u + v, pattern);
      FindSkips(u[1..], v, pattern);
      assert (u + v)[1..] == u[1..] + v;
    }
  }

  lemma FindAtStart(pattern: string, v: string)
    requires pattern != []
    ensures Find(pattern + v, pattern) == Some(0)
  {
    assert (pattern + v)[..|pattern|] == pattern;
  }

  lemma SuffixOf(u: string, v: string, k: nat)
    requires k <= |v|
    ensures (u + v)[|u| + k..] == v[k..]
  {
  }

  /** An opening mark at the start of a text lies in its first part or runs over the end of that part. */
  lemma MarkBegins(u: string, v: string)
    requires OPEN <= u + v
    ensures OPEN <= u || u <= OPEN
  {
    if |u| <= |OPEN| {
      assert u == (u + v)[..|u|] == OPEN[..|u|];
    } else {
      assert u[..|OPEN|] == (u + v)[..|OPEN|];
    }
  }

  /** A pattern that starts with the opening mark does not start within tame text. */
  lemma TameMisses(u: string, v: string, pattern: string)
    requires Tame(u) && u != [] && OPEN <= pattern
    ensures !(pattern <= u + v) && Tame(u[1..])
  {
    assert u[0..] == u;
    forall i | 0 <= i < |u[1..]| ensures !(OPEN <= u[1..][i..]) && !(u[1..][i..] <= OPEN) {
      assert u[1..][i..] == u[i + 1..];
    }
    if pattern <= u + v {
      MarkBegins(u, v);
    }
  }

  lemma {:induction false} FindSkipsTame(u: string, v: string, pattern: string)
    requires Tame(u) && OPEN <= pattern
    ensures Find(u + v, pattern) == Shift(|u|, Find(v, pattern))
  {
    if u == [] {
      assert u + v == v;
    } else {
      TameMisses(u, v, pattern);
      FindMisses(u + v, pattern);
      FindSkipsTame(u[1..], v, pattern);
      assert (u + v)[1..] == u[1..] + v;
    }
  }

  lemma TextSkipped(u: string, v: string)
    requires Tame(u)
    ensures Placeholders(u + v) == Placeholders(v)
  {
    FindSkipsTame(u, v, OPEN);
    var f := Find(v, OPEN);
    if f.Some? {
      SuffixOf(u, v, f.value + |OPEN|);
    }
  }

  lemma HoleScanned(key: string, v: string)
    requires BraceFree(key)
    ensures Placeholders(Placeholder(key) + v) == [key] + Placeholders(v)
  {
    var s := Placeholder(key) + v;
    var afterStart := key + (CLOSE + v);
    assert s == OPEN + afterStart;
    FindAtStart(OPEN, afterStart);
    assert s[|OPEN|..] == afterStart;
    FindSkips(key, CLOSE + v, CLOSE);
    FindAtStart(CLOSE, v);
    assert afterStart[..|key|] == key && afterStart[|key| + 2..] == v;
  }

  /** The scanner finds the placeholders of a well-formed value, in order and with repetitions. */
  lemma {:induction false} ScanFindsKeys(tokens: seq<Token>)
    requires WellFormed(tokens)
    ensures Placeholders(Render(tokens)) == Keys(tokens)
  {
    if tokens != [] {
      ScanFindsKeys(tokens[1..]);
      assert WellFormedToken(tokens[0]);
      if tokens[0].Text? {
        TextSkipped(tokens[0].text, Render(tokens[1..]));
      } else {
        HoleScanned(tokens[0].key, Render(tokens[1..]));
      }
    }
  }

  // ---- Replacing ----------------------------------------------------------------------------------

  lemma ReplaceMisses(s: string, pattern: string, sub: string)
    requires pattern != [] && s != [] && !(pattern <= s)
    ensures ReplaceAll(s, pattern, sub) == [s[0]] + ReplaceAll(s[1..], pattern, sub)
  {
    if |s| >= |pattern| {
      assert s[..|pattern|] != pattern;
    }
  }

  lemma {:induction false} ReplaceSkips(u: string, v: string, pattern: string, sub: string)
    requires pattern != [] && pattern[0] !in u
    ensures ReplaceAll(u + v, pattern, sub) == u + ReplaceAll(v, pattern, sub)
  {
    if u == [] {
      assert u + v == v;
    } else {
      assert (u + v)[0] == u[0];
      ReplaceMisses(u + v, pattern, sub);
      ReplaceSkips(u[1..], v, pattern, sub);
      assert (u + v)[1..] == u[1..] + v && u == [u[0]] + u[1..];
    }
  }

  lemma SplitHead(u: string, v: string)
    requires u != []
    ensures u + v == [u[0]] + (u[1..] + v)
  {
  }

  lemma {:induction false} ReplaceSkipsTame(u: string, v: string, pattern: string, sub: string)
    requires Tame(u) && OPEN <= pattern
    ensures ReplaceAll(u + v, pattern, sub) == u + ReplaceAll(v, pattern, sub)
  {
    if u == [] {
      assert u + v == v;
    } else {
      var rest, replaced := u[1..], ReplaceAll(v, pattern, sub);
      TameMisses(u, v, pattern);
      ReplaceSkipsTame(rest, v, pattern, sub);
      assert (u + v)[1..] == rest + v;
      ReplaceMisses(u + v, pattern, sub);
      SplitHead(u, replaced);
    }
  }

  /** Two placeholders agree only when their keys do. */
  lemma PlaceholderPrefix(key: string, other: string, v: string)
    requires BraceFree(key) && BraceFree(other)
    requires Placeholder(key) <= Placeholder(other) + v
    ensures key == other
  {
    var p, s := Placeholder(key), Placeholder(other) + v;
    assert forall i :: 0 <= i < |key| ==> p[|OPEN| + i] == key[i];
    assert forall i :: 0 <= i < |other| ==> s[|OPEN| + i] == other[i];
    assert p[|OPEN| + |key|] == '}' && s[|OPEN| + |other|] == '}';
    assert |key| == |other|;
    forall i | 0 <= i < |key| ensures key[i] == other[i] {
      assert p[|OPEN| + i] == s[|OPEN| + i];
    }
  }

  lemma HoleReplaced(hole: string, key: string, v: string, sub: string)
    requires BraceFree(hole) && BraceFree(key)
    ensures ReplaceAll(Placeholder(hole) + v, Placeholder(key), sub)
         == (if hole == key then sub else Placeholder(hole)) + ReplaceAll(v, Placeholder(key), sub)
  {
    var p, s := Placeholder(key), Placeholder(hole) + v;
    if hole == key {
      assert s[..|p|] == p && s[|p|..] == v;
    } else {
      if p <= s {
        PlaceholderPrefix(key, hole, v);
        assert false;
      }
      var inner := "rebind:" + hole + CLOSE;
      assert Placeholder(hole) == ['{', '{'] + inner;
      OtherHoleKept(inner, p, v, sub);
    }
  }

  lemma HeadKept(c: char, w: string, p: string, sub: string)
    requires p != [] && !(p <= [c] + w)
    ensures ReplaceAll([c] + w, p, sub) == [c] + ReplaceAll(w, p, sub)
  {
    assert ([c] + w)[1..] == w;
    ReplaceMisses([c] + w, p, sub);
  }

  lemma TwoBraces(inner: string, v: string)
    ensures ['{', '{'] + inner + v == ['{'] + (['{'] + (inner + v))
  {
  }

  /** A pattern that starts with two braces and does not match here cannot match before `v`. */
  lemma OtherHoleKept(inner: string, p: string, v: string, sub: string)
    requires |p| >= 2 && p[0] == p[1] == '{' && inner != [] && '{' !in inner
    requires !(p <= ['{', '{'] + inner + v)
    ensures ReplaceAll(['{', '{'] + inner + v, p, sub) == ['{', '{'] + inner + ReplaceAll(v, p, sub)
  {
    var w := inner + v;
    TwoBraces(inner, v);
    HeadKept('{', ['{'] + w, p, sub);
    assert (['{'] + w)[1] == inner[0];
    HeadKept('{', w, p, sub);
    ReplaceSkips(inner, v, p, sub);
    TwoBraces(inner, ReplaceAll(v, p, sub));
  }

  /** Replacing one placeholder in the text replaces exactly those holes. */
  lemma {:induction false} ReplaceBinds(tokens: seq<Token>, key: string, sub: string)
    requires WellFormed(tokens) && BraceFree(key)
    ensures ReplaceAll(Render(tokens), Placeholder(key), sub)
         == Render(BindKeys(tokens, {key}, map[key := sub]))
  {
    if tokens != [] {
      ReplaceBinds(tokens[1..], key, sub);
      assert WellFormedToken(tokens[0]);
      if tokens[0].Text? {
        ReplaceSkipsTame(tokens[0].text, Render(tokens[1..]), Placeholder(key), sub);
      } else {
        HoleReplaced(tokens[0].key, key, Render(tokens[1..]), sub);
      }
    }
  }

  lemma {:induction false} BindMore(tokens: seq<Token>, keys: set<string>, key: string, m: map<string, string>)
    requires keys <= m.Keys && key in m
    ensures BindKeys(BindKeys(tokens, keys, m), {key}, map[key := m[key]]) == BindKeys(tokens, keys + {key}, m)
  {
    if tokens != [] {
      BindMore(tokens[1..], keys, key, m);
    }
  }

  lemma {:induction false} BindKeepsForm(tokens: seq<Token>, keys: set<string>, m: map<string, string>)
    requires WellFormed(tokens) && keys <= m.Keys
    requires forall k :: k in keys ==> Tame(m[k])
    ensures WellFormed(BindKeys(tokens, keys, m))
  {
    if tokens != [] {
      BindKeepsForm(tokens[1..], keys, m);
    }
  }

  /** Sequential replacement, having bound `bound` already, ends with all of `keys` bound as well. */
  lemma {:induction false} SequentialBinds(tokens: seq<Token>, bound: set<string>, keys: seq<string>,
                                           m: map<string, string>)
    requires WellFormed(tokens) && bound + KeySet(keys) <= m.Keys
    requires forall k :: k in keys ==> BraceFree(k)
    requires forall k :: k in bound + KeySet(keys) ==> Tame(m[k])
    ensures ReplaceKeys(Render(BindKeys(tokens, bound, m)), keys, m)
         == Some(Render(BindKeys(tokens, bound + KeySet(keys), m)))
    decreases |keys|
  {
    if keys == [] {
      assert bound + KeySet(keys) == bound;
    } else {
      var key := keys[0];
      assert key in KeySet(keys) && KeySet(keys[1..]) <= KeySet(keys);
      BindKeepsForm(tokens, bound, m);
      ReplaceBinds(BindKeys(tokens, bound, m), key, m[key]);
      BindMore(tokens, bound, key, m);
      SequentialBinds(tokens, bound + {key}, keys[1..], m);
      assert bound + {key} + KeySet(keys[1..]) == bound + KeySet(keys) by {
        assert keys == [key] + keys[1..];
      }
    }
  }

  lemma {:induction false} BindNothing(tokens: seq<Token>, m: map<string, string>)
    ensures BindKeys(tokens, {}, m) == tokens
  {
    if tokens != [] {
      BindNothing(tokens[1..], m);
    }
  }

  lemma {:induction false} KeysBraceFree(tokens: seq<Token>)
    requires WellFormed(tokens)
    ensures forall k :: k in Keys(tokens) ==> BraceFree(k)
  {
    if tokens != [] {
      KeysBraceFree(tokens[1..]);
      assert WellFormedToken(tokens[0]);
    }
  }

  lemma TameConcat(u: string, v: string)
    requires Tame(u) && Tame(v)
    ensures Tame(u + v)
  {
    var s := u + v;
    forall i | 0 <= i < |s| ensures !(OPEN <= s[i..]) && !(s[i..] <= OPEN) {
      if i < |u| {
        assert s[i..] == u[i..] + v;
        if OPEN <= u[i..] + v {
          MarkBegins(u[i..], v);
        }
        assert u[i..] <= s[i..];
      } else {
        SuffixOf(u, v, i - |u|);
      }
    }
  }

  lemma {:induction false} AllBoundTame(tokens: seq<Token>, keys: set<string>, m: map<string, string>)
    requires WellFormed(tokens) && KeySet(Keys(tokens)) <= keys <= m.Keys
    requires forall k :: k in keys ==> Tame(m[k])
    ensures Tame(Render(BindKeys(tokens, keys, m)))
  {
    if tokens != [] {
      assert KeySet(Keys(tokens[1..])) <= KeySet(Keys(tokens));
      AllBoundTame(tokens[1..], keys, m);
      assert WellFormedToken(tokens[0]);
      if tokens[0].Hole? {
        assert tokens[0].key in KeySet(Keys(tokens));
      }
      var bound := BindKeys(tokens, keys, m);
      assert bound[1..] == BindKeys(tokens[1..], keys, m);
      TameConcat(RenderToken(bound[0]), Render(bound[1..]));
    }
  }

  /** For values of tame text and placeholders, and tame bindings of its own keys, JSON included, replacing
      key after key is the simultaneous substitution, and no placeholder is left. */
  lemma SequentialIsSimultaneous(tokens: seq<Token>, m: map<string, string>)
    requires WellFormed(tokens) && KeySet(Keys(tokens)) <= m.Keys
    requires forall k :: k in KeySet(Keys(tokens)) ==> Tame(m[k])
    ensures ReplacePlaceholders(Render(tokens), m) == Some(Substitute(tokens, m))
    ensures Placeholders(Substitute(tokens, m)) == []
  {
    ScanFindsKeys(tokens);
    KeysBraceFree(tokens);
    BindNothing(tokens, m);
    SequentialBinds(tokens, {}, Keys(tokens), m);
    assert {} + KeySet(Keys(tokens)) == KeySet(Keys(tokens));
    AllBoundTame(tokens, KeySet(Keys(tokens)), m);
    var result := Substitute(tokens, m);
    TextSkipped(result, "");
    assert result + "" == result;
  }

  lemma RenderPair(x: Token, y: Token)
    ensures Render([x, y]) == RenderToken(x) + RenderToken(y)
  {
    assert [x, y][1..] == [y] && [y][1..] == [];
    assert Render([y]) == RenderToken(y) + Render([]);
  }

  lemma PairReplaced(x: string, y: string, key: string, sub: string)
    requires BraceFree(x) && BraceFree(y) && BraceFree(key)
    ensures ReplaceAll(Placeholder(x) + Placeholder(y), Placeholder(key), sub)
         == (if x == key then sub else Placeholder(x)) + (if y == key then sub else Placeholder(y))
  {
    HoleReplaced(x, key, Placeholder(y), sub);
    HoleReplaced(y, key, "", sub);
    assert Placeholder(y) + "" == Placeholder(y);
    assert ReplaceAll("", Placeholder(key), sub) == "";
  }

  lemma PairScanned(a: string, b: string)
    requires BraceFree(a) && BraceFree(b)
    ensures Placeholders(Placeholder(a) + Placeholder(b)) == [a, b]
  {
    HoleScanned(a, Placeholder(b));
    HoleScanned(b, "");
    assert Placeholder(b) + "" == Placeholder(b);
    assert Placeholders("") == [];
  }

  /** A binding that itself spells a placeholder is replaced again: for any two keys, the outcome is
      the second binding twice instead of the first binding followed by the second. */
  lemma BindingsAreRescanned(a: string, b: string, text: string)
    requires BraceFree(a) && BraceFree(b) && BraceFree(text) && a != b
    ensures
      var tokens := [Hole(a), Hole(b)];
      var m := map[a := Placeholder(b), b := text];
      && Placeholders(Render(tokens)) == [a, b]
      && ReplacePlaceholders(Render(tokens), m) == Some(text + text)
  {
    var tokens := [Hole(a), Hole(b)];
    var m := map[a := Placeholder(b), b := text];
    RenderPair(Hole(a), Hole(b));
    PairScanned(a, b);
    PairReplaced(a, b, a, Placeholder(b));
    PairReplaced(b, b, b, text);
    assert [a, b][1..] == [b] && [b][1..] == [];
    var once := Placeholder(b) + Placeholder(b);
    assert ReplaceKeys(once, [b], m) == ReplaceKeys(text + text, [], m);
  }
}
