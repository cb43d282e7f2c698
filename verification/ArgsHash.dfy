/** The canonical form behind the args-hash annotation (hashArgs in
    internal/controller/statefulset_builder.go): a sorted copy of the arguments joined by NUL bytes.
    The hash itself is an opaque function of that string. */
module ArgsHash {
  /** Lexicographic order, as sort.Strings uses it. */
  predicate Le(a: string, b: string) {
    if a == "" then true
    else if b == "" then false
    else if a[0] == b[0] then Le(a[1..], b[1..])
    else a[0] < b[0]
  }

  lemma LeTotal(a: string, b: string)
    ensures Le(a, b) || Le(b, a)
    ensures Le(a, b) && Le(b, a) ==> a == b
  {
    if a != "" && b != "" && a[0] == b[0] {
      LeTotal(a[1..], b[1..]);
      assert a == [a[0]] + a[1..] && b == [b[0]] + b[1..];
    }
  }

  lemma LeTransitive(a: string, b: string, c: string)
    requires Le(a, b) && Le(b, c)
    ensures Le(a, c)
  {
    if a != "" && b != "" && c != "" && a[0] == b[0] == c[0] {
      LeTransitive(a[1..], b[1..], c[1..]);
    }
  }

  function Insert(x: string, s: seq<string>): seq<string> {
    if s == [] || Le(x, s[0]) then [x] + s else [s[0]] + Insert(x, s[1..])
  }

  function SortStrings(s: seq<string>): seq<string> {
    if s == [] then [] else Insert(s[0], SortStrings(s[1..]))
  }

  function Join(s: seq<string>): string {
    if s == [] then "" else if |s| == 1 then s[0] else s[0] + "\0" + Join(s[1..])
  }

  /** The string that hashArgs feeds to SHA-256. */
  function HashInput(args: seq<string>): string {
    Join(SortStrings(args))
  }

  // ---------------------------------------------------------------------------------------------
  // Sorting gives one representative per multiset
  // ---------------------------------------------------------------------------------------------

  predicate Sorted(s: seq<string>) {
    forall i, j | 0 <= i < j < |s| :: Le(s[i], s[j])
  }

  lemma {:induction false} InsertSorts(x: string, s: seq<string>)
    requires Sorted(s)
    ensures Sorted(Insert(x, s)) && multiset(Insert(x, s)) == multiset{x} + multiset(s)
  {
    if s == [] {
    } else if Le(x, s[0]) {
      forall j | 0 <= j < |s| ensures Le(x, s[j]) {
        if j > 0 { LeTransitive(x, s[0], s[j]); }
      }
    } else {
      LeTotal(x, s[0]);
      InsertSorts(x, s[1..]);
      assert s == [s[0]] + s[1..];
      var r := Insert(x, s[1..]);
      forall j | 0 <= j < |r| ensures Le(s[0], r[j]) {
        assert r[j] in multiset(r);
        assert r[j] == x || r[j] in s[1..];
      }
    }
  }

  lemma {:induction false} SortSorts(s: seq<string>)
    ensures Sorted(SortStrings(s)) && multiset(SortStrings(s)) == multiset(s)
  {
    if s != [] {
      SortSorts(s[1..]);
      InsertSorts(s[0], SortStrings(s[1..]));
      assert s == [s[0]] + s[1..];
    }
  }

  lemma {:induction false} SortedIsUnique(a: seq<string>, b: seq<string>)
    requires Sorted(a) && Sorted(b) && multiset(a) == multiset(b)
    ensures a == b
  {
    assert |a| == |multiset(a)| == |multiset(b)| == |b|;
    if a != [] {
      SameHead(a, b);
      HeadOff(a);
      HeadOff(b);
      SortedIsUnique(a[1..], b[1..]);
      assert a == [a[0]] + a[1..] && b == [b[0]] + b[1..];
    }
  }

  /** hashArgs. `sorted` is what sort.Strings makes of the copied arguments: some sorted permutation of
      them, which by `SortedIsUnique` can only be one. */
  method HashArgs(args: seq<string>, sorted: seq<string>, sha: string -> string) returns (digest: string)
    requires Sorted(sorted) && multiset(sorted) == multiset(args)
    ensures digest == sha(HashInput(args))
  {
    SortSorts(args);
    SortedIsUnique(sorted, SortStrings(args));
    var joined := "";
    var i := |sorted|;
    while i > 0
      invariant 0 <= i <= |sorted| && joined == Join(sorted[i..])
    {
      assert sorted[i - 1..][1..] == sorted[i..];
      joined := if i == |sorted| then sorted[i - 1] else sorted[i - 1] + "\0" + joined;
      i := i - 1;
    }
    digest := sha(joined);
  }

  lemma SameHead(a: seq<string>, b: seq<string>)
    requires Sorted(a) && Sorted(b) && multiset(a) == multiset(b) && a != [] && b != []
    ensures a[0] == b[0]
  {
    assert a[0] in multiset(b) && b[0] in multiset(a);
    HeadIsLeast(a, b[0]);
    HeadIsLeast(b, a[0]);
    LeTotal(a[0], b[0]);
  }

  lemma HeadOff(a: seq<string>)
    requires a != []
    ensures multiset(a[1..]) == multiset(a) - multiset{a[0]}
  {
    assert a == [a[0]] + a[1..];
  }

  lemma HeadIsLeast(s: seq<string>, x: string)
    requires Sorted(s) && x in s
    ensures Le(s[0], x)
  {
    LeTotal(x, x);
  }

  // ---------------------------------------------------------------------------------------------
  // Joining loses nothing
  // ---------------------------------------------------------------------------------------------

  predicate NulFree(s: seq<string>) {
    forall i | 0 <= i < |s| :: '\0' !in s[i]
  }

  lemma NulPosition(a: string, x: string)
    requires '\0' !in a
    ensures (a + "\0" + x)[|a|] == '\0' && forall i | 0 <= i < |a| :: (a + "\0" + x)[i] != '\0'
  {
    assert forall i | 0 <= i < |a| :: (a + "\0" + x)[i] == a[i];
  }

  lemma FirstNul(a: string, x: string, b: string, y: string)
    requires '\0' !in a && '\0' !in b && a + "\0" + x == b + "\0" + y
    ensures a == b && x == y
  {
    var l, r := a + "\0" + x, b + "\0" + y;
    NulPosition(a, x);
    NulPosition(b, y);
    assert |a| == |b|;
    assert a == l[..|a|] && b == r[..|b|] && x == l[|a| + 1..] && y == r[|b| + 1..];
  }

  lemma LongJoinsHaveNul(s: seq<string>)
    ensures |s| > 1 ==> '\0' in Join(s)
  {
    if |s| > 1 {
      assert Join(s)[|s[0]|] == '\0';
    }
  }

  lemma {:induction false} JoinIsInjective(s: seq<string>, t: seq<string>)
    requires s != [] && t != [] && NulFree(s) && NulFree(t) && Join(s) == Join(t)
    ensures s == t
  {
    LongJoinsHaveNul(s);
    LongJoinsHaveNul(t);
    if |s| == 1 || |t| == 1 {
      assert |s| == |t| == 1;
    } else {
      FirstNul(s[0], Join(s[1..]), t[0], Join(t[1..]));
      JoinIsInjective(s[1..], t[1..]);
      assert s == [s[0]] + s[1..] && t == [t[0]] + t[1..];
    }
  }

  /** For non-empty argument vectors without NUL bytes, the hashed strings are equal iff the vectors are
      permutations of each other: a change of arguments always changes the hash input, a mere reordering
      never does. */
  lemma HashInputIsCanonical(a: seq<string>, b: seq<string>)
    requires a != [] && b != [] && NulFree(a) && NulFree(b)
    ensures HashInput(a) == HashInput(b) <==> multiset(a) == multiset(b)
  {
    SortSorts(a);
    SortSorts(b);
    if HashInput(a) == HashInput(b) {
      SortKeepsNulFree(a);
      SortKeepsNulFree(b);
      JoinIsInjective(SortStrings(a), SortStrings(b));
    } else if multiset(a) == multiset(b) {
      SortedIsUnique(SortStrings(a), SortStrings(b));
    }
  }

  lemma SortKeepsNulFree(s: seq<string>)
    requires s != [] && NulFree(s)
    ensures SortStrings(s) != [] && NulFree(SortStrings(s))
  {
    SortSorts(s);
    var t := SortStrings(s);
    assert s[0] in multiset(t);
    forall i | 0 <= i < |t| ensures '\0' !in t[i] {
      assert t[i] in multiset(s);
    }
  }

  /** Both conditions are needed: the empty vector collides with the vector of one empty argument, and
      an argument holding a NUL with its two halves. */
  lemma CollisionsOutside()
    ensures HashInput([]) == HashInput([""])
    ensures HashInput(["a\0b"]) == HashInput(["a", "b"])
  {
    assert SortStrings(["a\0b"]) == ["a\0b"];
    assert Le("a", "b");
    assert SortStrings(["b"]) == ["b"];
    assert ["a", "b"][1..] == ["b"];
    assert SortStrings(["a", "b"]) == ["a", "b"];
    assert Join(["b"]) == "b";
    assert Join(["a", "b"]) == "a" + "\0" + "b";
  }

  lemma {:induction false} LeAtFirstDifference(p: string, c: char, u: string, d: char, v: string)
    requires c < d
    ensures Le(p + [c] + u, p + [d] + v) && !Le(p + [d] + v, p + [c] + u)
    ensures Le(p, p + u) && (u != "" ==> !Le(p + u, p))
  {
    var a, b := p + [c] + u, p + [d] + v;
    if p != "" {
      LeAtFirstDifference(p[1..], c, u, d, v);
      assert a[1..] == p[1..] + [c] + u && b[1..] == p[1..] + [d] + v && (p + u)[1..] == p[1..] + u;
    }
  }

  /** The order of the canonical string is ascending, byte by byte: at the first difference the smaller
      byte comes first, and a proper prefix before its extensions. */
  lemma PairsAscend(p: string, c: char, u: string, d: char, v: string)
    requires c < d
    ensures var a, b := p + [c] + u, p + [d] + v;
      HashInput([a, b]) == HashInput([b, a]) == a + "\0" + b
    ensures u != "" ==> HashInput([p, p + u]) == HashInput([p + u, p]) == p + "\0" + (p + u)
  {
    LeAtFirstDifference(p, c, u, d, v);
    InOrder(p + [c] + u, p + [d] + v);
    if u != "" {
      InOrder(p, p + u);
    }
  }

  lemma InOrder(a: string, b: string)
    requires Le(a, b) && !Le(b, a)
    ensures HashInput([a, b]) == HashInput([b, a]) == a + "\0" + b
  {
    hide Le;
    assert [a, b][1..] == [b] && [b, a][1..] == [a] && [b][1..] == [] && [a][1..] == [];
    assert SortStrings([a]) == [a] && SortStrings([b]) == [b];
    assert SortStrings([a, b]) == [a, b];
    assert Insert(b, [a]) == [a] + Insert(b, [a][1..]);
    assert SortStrings([b, a]) == [a, b];
    assert Join([b]) == b;
  }
}
