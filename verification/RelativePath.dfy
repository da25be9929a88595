/** Relative artifact paths: splitting into components, the safety check, and joining back. */
module RelativePath {
  import opened Prelude

  const SLASH: byte := 47
  const DOT: Bytes := [46]
  const DOT_DOT: Bytes := [46, 46]

  type Name = Bytes

  /** The pieces between slashes; there is always at least one. */
  function Split(s: Bytes): (r: seq<Bytes>)
    ensures r != []
    ensures forall p :: p in r ==> SLASH !in p
  {
    if s == [] then [[]]
    else if s[0] == SLASH then [[]] + Split(s[1..])
    else
      var r := Split(s[1..]);
      [[s[0]] + r[0]] + r[1..]
  }

  /** Empty pieces and inner "." pieces disappear, as in `Path::components`. */
  function Normal(pieces: seq<Bytes>): (r: seq<Bytes>)
    ensures forall p :: p in r ==> p in pieces && p != [] && p != DOT
  {
    if pieces == [] then []
    else if pieces[0] == [] || pieces[0] == DOT then Normal(pieces[1..])
    else [pieces[0]] + Normal(pieces[1..])
  }

  function Components(s: Bytes): (r: seq<Name>)
    ensures forall p :: p in r ==> SLASH !in p && p != [] && p != DOT
  {
    Normal(Split(s))
  }

  /** `validate_relative_path`: non-empty, relative, and every component is a plain name. */
  predicate IsSafe(s: Bytes) {
    s != [] && s[0] != SLASH && Split(s)[0] != DOT && DOT_DOT !in Split(s)
  }

  /** The path does not end in a slash or a dot component, so a file can be created there. */
  predicate EndsInName(s: Bytes) {
    var pieces := Split(s);
    pieces[|pieces| - 1] != [] && pieces[|pieces| - 1] != DOT
  }

  predicate ValidName(n: Name) {
    n != [] && n != DOT && n != DOT_DOT && SLASH !in n
  }

  predicate ValidNames(ns: seq<Name>) {
    forall i :: 0 <= i < |ns| ==> ValidName(ns[i])
  }

  function Join(ns: seq<Name>): Bytes {
    if ns == [] then [] else if |ns| == 1 then ns[0] else ns[0] + [SLASH] + Join(ns[1..])
  }

  lemma SafeComponents(s: Bytes)
    requires IsSafe(s)
    ensures Components(s) != [] && ValidNames(Components(s))
  {
    assert Split(s)[0] != [];
    assert Split(s)[0] == Components(s)[0];
    forall i | 0 <= i < |Components(s)| ensures ValidName(Components(s)[i]) {
      assert Components(s)[i] in Normal(Split(s));
    }
  }

  lemma {:induction false} SplitPiece(p: Bytes, rest: Bytes)
    requires SLASH !in p
    ensures Split(p) == [p]
    ensures Split(p + [SLASH] + rest) == [p] + Split(rest)
  {
    var s := p + [SLASH] + rest;
    if p == [] {
      assert s[1..] == rest;
    } else {
      SplitPiece(p[1..], rest);
      assert s[1..] == p[1..] + [SLASH] + rest;
      assert p == [p[0]] + p[1..];
    }
  }

  lemma {:induction false} SplitUndoesJoin(ns: seq<Name>)
    requires ns != [] && ValidNames(ns)
    ensures Split(Join(ns)) == ns
  {
    if |ns| == 1 {
      SplitPiece(ns[0], []);
    } else {
      SplitPiece(ns[0], Join(ns[1..]));
      SplitUndoesJoin(ns[1..]);
      assert ns == [ns[0]] + ns[1..];
    }
  }

  lemma {:induction false} NormalKeepsNames(ns: seq<Name>)
    requires ValidNames(ns)
    ensures Normal(ns) == ns
  {
    if ns != [] {
      NormalKeepsNames(ns[1..]);
      assert ns == [ns[0]] + ns[1..];
    }
  }

  /** Joined names are a safe path with exactly those components. */
  lemma ComponentsUndoJoin(ns: seq<Name>)
    requires ns != [] && ValidNames(ns)
    ensures IsSafe(Join(ns)) && EndsInName(Join(ns)) && Components(Join(ns)) == ns
  {
    SplitUndoesJoin(ns);
    NormalKeepsNames(ns);
    assert ValidName(ns[0]);
    assert Join(ns) != [] && Join(ns)[0] == ns[0][0];
  }
}
