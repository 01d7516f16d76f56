/** The order in which dtypes are broadcast: their names, sorted. */
module DtypeOrder {
  import opened Sequences

  predicate Leq(a: string, b: string) {
    a == [] || (b != [] && (a[0] < b[0] || (a[0] == b[0] && Leq(a[1..], b[1..]))))
  }

  /** The alphabetical order: a prefix comes first, otherwise the first difference decides. */
  ghost predicate Alphabetical(a: string, b: string) {
    a <= b || exists k :: 0 <= k < |a| && k < |b| && a[..k] == b[..k] && a[k] < b[k]
  }

  lemma {:induction false} LeqIs(a: string, b: string)
    ensures Leq(a, b) <==> Alphabetical(a, b)
  {
    if a != [] && b != [] && a[0] == b[0] {
      LeqIs(a[1..], b[1..]);
      AlphabeticalTail(a, b);
    } else if a != [] && b != [] && a[0] < b[0] {
      assert a[..0] == b[..0];
    }
  }

  lemma AlphabeticalTail(a: string, b: string)
    requires a != [] && b != [] && a[0] == b[0]
    ensures Alphabetical(a, b) <==> Alphabetical(a[1..], b[1..])
  {
    assert a == [a[0]] + a[1..] && b == [a[0]] + b[1..];
    if Alphabetical(a[1..], b[1..]) {
      AlphabeticalMore(a[0], a[1..], b[1..]);
    }
    if k :| 0 <= k < |a| && k < |b| && a[..k] == b[..k] && a[k] < b[k] {
      assert a[1..][..k - 1] == a[..k][1..] && b[1..][..k - 1] == b[..k][1..];
      assert a[1..][k - 1] == a[k] && b[1..][k - 1] == b[k];
    }
  }

  lemma AlphabeticalMore(c: char, a: string, b: string)
    requires Alphabetical(a, b)
    ensures Alphabetical([c] + a, [c] + b)
  {
    if k :| 0 <= k < |a| && k < |b| && a[..k] == b[..k] && a[k] < b[k] {
      assert ([c] + a)[..k + 1] == [c] + a[..k] && ([c] + b)[..k + 1] == [c] + b[..k];
      assert ([c] + a)[k + 1] < ([c] + b)[k + 1];
    }
  }

  lemma {:induction false} Antisymmetric(a: string, b: string)
    requires Leq(a, b) && Leq(b, a)
    ensures a == b
  {
    if a != [] {
      Antisymmetric(a[1..], b[1..]);
      assert a == [a[0]] + a[1..] && b == [b[0]] + b[1..];
    }
  }

  lemma {:induction false} Connected(a: string, b: string)
    ensures Leq(a, b) || Leq(b, a)
  {
    if a != [] && b != [] {
      Connected(a[1..], b[1..]);
    }
  }

  lemma {:induction false} Transitive(a: string, b: string, c: string)
    requires Leq(a, b) && Leq(b, c)
    ensures Leq(a, c)
  {
    if a != [] && a[0] == b[0] == c[0] {
      Transitive(a[1..], b[1..], c[1..]);
    }
  }

  function Insert(name: string, names: seq<string>): seq<string> {
    if names == [] || Leq(name, names[0]) then [name] + names else [names[0]] + Insert(name, names[1..])
  }

  function Sort(names: seq<string>): seq<string> {
    if names == [] then [] else Insert(names[0], Sort(names[1..]))
  }

  ghost predicate Ascending(names: seq<string>) {
    names == [] || ((forall n | n in names[1..] :: Leq(names[0], n) && n != names[0]) && Ascending(names[1..]))
  }

  lemma {:induction false} InsertElements(name: string, names: seq<string>)
    ensures forall n :: n in Insert(name, names) <==> n == name || n in names
    ensures |Insert(name, names)| == |names| + 1
  {
    if names != [] && !Leq(name, names[0]) {
      InsertElements(name, names[1..]);
      assert names == [names[0]] + names[1..];
    }
  }

  lemma {:induction false} InsertAscending(name: string, names: seq<string>)
    requires Ascending(names) && name !in names
    ensures Ascending(Insert(name, names))
  {
    if names != [] {
      var s := Insert(name, names);
      InsertElements(name, names);
      if Leq(name, names[0]) {
        assert s[1..] == names;
        forall n | n in names ensures Leq(name, n) && n != name {
          if n != names[0] {
            assert n in names[1..];
            Transitive(name, names[0], n);
          }
        }
      } else {
        Connected(name, names[0]);
        InsertElements(name, names[1..]);
        InsertAscending(name, names[1..]);
        assert s[1..] == Insert(name, names[1..]);
      }
    }
  }

  lemma {:induction false} SortSorts(names: seq<string>)
    requires Distinct(names)
    ensures Ascending(Sort(names)) && |Sort(names)| == |names| && forall n :: n in Sort(names) <==> n in names
  {
    if names != [] {
      SortSorts(names[1..]);
      InsertElements(names[0], Sort(names[1..]));
      InsertAscending(names[0], Sort(names[1..]));
      assert names == [names[0]] + names[1..];
    }
  }

  lemma {:induction false} AscendingAgree(a: seq<string>, b: seq<string>)
    requires Ascending(a) && Ascending(b) && forall n :: n in a <==> n in b
    ensures a == b
  {
    assert a != [] ==> a[0] in b;
    assert b != [] ==> b[0] in a;
    if a != [] {
      assert a == [a[0]] + a[1..] && b == [b[0]] + b[1..];
      if a[0] != b[0] {
        assert a[0] in b[1..] && b[0] in a[1..];
        Antisymmetric(a[0], b[0]);
      }
      assert forall n :: n in a[1..] <==> n in a && n != a[0];
      assert forall n :: n in b[1..] <==> n in b && n != b[0];
      AscendingAgree(a[1..], b[1..]);
    }
  }

  /** Whatever order the two sides meet the dtypes in, they sort them alike. */
  lemma SortAgrees(sender: seq<string>, receiver: seq<string>)
    requires Distinct(sender) && Distinct(receiver) && forall n :: n in sender <==> n in receiver
    ensures Sort(sender) == Sort(receiver)
  {
    SortSorts(sender);
    SortSorts(receiver);
    AscendingAgree(Sort(sender), Sort(receiver));
  }
}
