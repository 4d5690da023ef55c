/** `cn(...args)`: the CSS class-name combiner. Falsy arguments (`false`,
    `undefined`, the empty string) are dropped; the rest are turned into
    text and joined with single spaces. */
module ClassNames {
  datatype ClassArg = Str(s: string) | Bool(b: bool) | Undefined

  /** `Boolean(arg)`. */
  predicate Truthy(a: ClassArg) {
    match a
    case Str(s) => s != []
    case Bool(b) => b
    case Undefined => false
  }

  /** `String(arg)` for a truthy argument; only `true` survives of the
      booleans. */
  function Text(a: ClassArg): (r: string)
    requires Truthy(a)
    ensures r != []
  {
    match a
    case Str(s) => s
    case Bool(_) => "true"
  }

  /** `args.filter(Boolean)`, each kept argument as text, in order. */
  function Kept(args: seq<ClassArg>): (r: seq<string>)
    ensures |r| <= |args|
    ensures forall i :: 0 <= i < |r| ==> r[i] != []
  {
    if args == [] then []
    else if Truthy(args[0]) then [Text(args[0])] + Kept(args[1..])
    else Kept(args[1..])
  }

  /** `parts.join(' ')`. */
  function Join(parts: seq<string>): (r: string)
    ensures parts == [] ==> r == []
    ensures |parts| == 1 ==> r == parts[0]
  {
    if parts == [] then []
    else if |parts| == 1 then parts[0]
    else parts[0] + " " + Join(parts[1..])
  }

  function Cn(args: seq<ClassArg>): string {
    Join(Kept(args))
  }

  // ------------------------------------------------------------ properties

  lemma {:induction false} KeptConcat(a: seq<ClassArg>, b: seq<ClassArg>)
    ensures Kept(a + b) == Kept(a) + Kept(b)
    decreases |a|
  {
    if a == [] {
      assert a + b == b;
    } else {
      KeptConcat(a[1..], b);
      assert (a + b)[0] == a[0] && (a + b)[1..] == a[1..] + b;
    }
  }

  /** Joining two lists of words puts one space between the two joins when
      both are non-empty. */
  lemma {:induction false} JoinConcat(p: seq<string>, q: seq<string>)
    ensures Join(p + q) == Join(p) + (if p != [] && q != [] then " " else "") + Join(q)
    decreases |p|
  {
    if p == [] {
      assert p + q == q;
    } else if q == [] {
      assert p + q == p;
    } else {
      assert (p + q)[0] == p[0];
      if |p| == 1 {
        assert (p + q)[1..] == q;
      } else {
        JoinConcat(p[1..], q);
        assert (p + q)[1..] == p[1..] + q;
        assert Join(p) == p[0] + " " + Join(p[1..]);
        assert Join(p + q) == p[0] + " " + (Join(p[1..]) + " " + Join(q));
      }
    }
  }

  /** The output is empty exactly when no argument is truthy: no argument,
      or only falsy ones, give ''. */
  lemma {:induction false} CnEmptyIff(args: seq<ClassArg>)
    ensures Cn(args) == [] <==> forall i :: 0 <= i < |args| ==> !Truthy(args[i])
    decreases |args|
  {
    if args != [] {
      CnEmptyIff(args[1..]);
      KeptConcat([args[0]], args[1..]);
      assert args == [args[0]] + args[1..];
      var rest := Kept(args[1..]);
      if Truthy(args[0]) {
        JoinConcat([Text(args[0])], rest);
      }
      assert forall i :: 1 <= i < |args| ==> args[i] == args[1..][i - 1];
    }
  }

  /** `cn(...a, ...b)` is `cn(...a)` and `cn(...b)` joined by a space, the
      space only when both are non-empty. */
  lemma CnConcat(a: seq<ClassArg>, b: seq<ClassArg>)
    ensures Cn(a + b) == Cn(a) + (if Cn(a) != [] && Cn(b) != [] then " " else "") + Cn(b)
  {
    KeptConcat(a, b);
    JoinConcat(Kept(a), Kept(b));
    KeptEmptyIff(a);
    KeptEmptyIff(b);
  }

  lemma KeptEmptyIff(args: seq<ClassArg>)
    ensures Join(Kept(args)) == [] <==> Kept(args) == []
  {
    var k := Kept(args);
    if |k| > 1 {
      assert Join(k) == k[0] + " " + Join(k[1..]);
    }
  }

  /** A falsy argument, wherever it stands, does not change the output. */
  lemma FalsyIgnored(a: seq<ClassArg>, x: ClassArg, b: seq<ClassArg>)
    requires !Truthy(x)
    ensures Cn(a + [x] + b) == Cn(a + b)
  {
    KeptConcat(a + [x], b);
    KeptConcat(a, [x]);
    KeptConcat(a, b);
    assert Kept([x]) == [] by {
      assert [x][1..] == [];
    }
    assert Kept(a + [x]) == Kept(a);
  }

  /** A single non-empty class name comes back unchanged; `true` contributes
      the text "true". */
  lemma SingleArgument(s: string)
    ensures s != [] ==> Cn([Str(s)]) == s
    ensures Cn([Bool(true)]) == "true"
    ensures Cn([Bool(false)]) == [] && Cn([Undefined]) == [] && Cn([Str([])]) == []
  {
    assert [Str(s)][1..] == [];
    assert [Bool(true)][1..] == [];
  }

  /** The kept words, in order, are the texts of the truthy arguments. */
  lemma {:induction false} KeptOrder(args: seq<ClassArg>, i: nat, j: nat)
    requires i < j < |args| && Truthy(args[i]) && Truthy(args[j])
    ensures exists p, q :: 0 <= p < q < |Kept(args)| && Kept(args)[p] == Text(args[i]) && Kept(args)[q] == Text(args[j])
    decreases |args|
  {
    var rest := Kept(args[1..]);
    if i == 0 {
      var q := KeptIndex(args[1..], j - 1);
      assert args[1..][j - 1] == args[j];
      assert Kept(args) == [Text(args[0])] + rest;
      assert Kept(args)[0] == Text(args[i]) && Kept(args)[q + 1] == rest[q];
    } else {
      assert args[1..][i - 1] == args[i] && args[1..][j - 1] == args[j];
      KeptOrder(args[1..], i - 1, j - 1);
      var p, q :| 0 <= p < q < |rest| && rest[p] == Text(args[i]) && rest[q] == Text(args[j]);
      if Truthy(args[0]) {
        assert Kept(args) == [Text(args[0])] + rest;
        assert Kept(args)[p + 1] == rest[p] && Kept(args)[q + 1] == rest[q];
      } else {
        assert Kept(args) == rest;
      }
    }
  }

  /** Every truthy argument is kept. */
  lemma {:induction false} KeptIndex(args: seq<ClassArg>, j: nat) returns (q: nat)
    requires j < |args| && Truthy(args[j])
    ensures q < |Kept(args)| && Kept(args)[q] == Text(args[j])
    decreases |args|
  {
    if j == 0 {
      q := 0;
    } else {
      assert args[1..][j - 1] == args[j];
      var q' := KeptIndex(args[1..], j - 1);
      q := if Truthy(args[0]) then q' + 1 else q';
    }
  }

  /** Every kept word is the text of a truthy argument. */
  lemma {:induction false} KeptFrom(args: seq<ClassArg>, q: nat)
    requires q < |Kept(args)|
    ensures exists j :: 0 <= j < |args| && Truthy(args[j]) && Kept(args)[q] == Text(args[j])
    decreases |args|
  {
    var rest := Kept(args[1..]);
    if Truthy(args[0]) && q == 0 {
      assert Kept(args)[0] == Text(args[0]);
    } else {
      var q' := if Truthy(args[0]) then q - 1 else q;
      assert Kept(args)[q] == rest[q'];
      KeptFrom(args[1..], q');
      var j :| 0 <= j < |args[1..]| && Truthy(args[1..][j]) && rest[q'] == Text(args[1..][j]);
      assert args[1..][j] == args[j + 1];
    }
  }
}
