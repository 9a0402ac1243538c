/**
  Configuration documents of agens-config: trees of tables, arrays and scalars,
  and the deep merge that lays a project document over a global one.
*/
module Documents {
  import opened Wrappers

  /** Floats and date-times are carried as they were written. */
  datatype Value =
    | Text(text: string)
    | Integer(number: int)
    | Boolean(flag: bool)
    | Written(token: string)
    | Array(items: seq<Value>)
    | Table(entries: Document)

  type Document = map<string, Value>

  /** What the merge of `project` over `global` holds, key by key. */
  function Merged(global: Document, project: Document): Document
    decreases Table(project)
  {
    map key | key in global.Keys + project.Keys ::
      if key !in project then global[key]
      else if key in global && global[key].Table? && project[key].Table? then
        Table(Merged(global[key].entries, project[key].entries))
      else project[key]
  }

  /** One more entry of the project, laid over what came before. */
  lemma MergedRound(global: Document, taken: Document, key: string, value: Value)
    requires key !in taken
    ensures Merged(global, taken[key := value]) == Merged(global, taken)[key :=
      if key in global && global[key].Table? && value.Table? then Table(Merged(global[key].entries, value.entries))
      else value]
  {
  }

  /** `merge_tables`: inserts the project's entries one at a time, descending
      where both sides hold a table. */
  method MergeTables(global: Document, project: Document) returns (merged: Document)
    ensures merged == Merged(global, project)
    decreases Table(project)
  {
    merged := global;
    var remaining := project.Keys;
    ghost var taken: Document := map[];
    while remaining != {}
      invariant remaining <= project.Keys
      invariant taken == map key | key in project && key !in remaining :: project[key]
      invariant merged == Merged(global, taken)
      decreases remaining
    {
      var key :| key in remaining;
      MergedRound(global, taken, key, project[key]);
      if key in merged && merged[key].Table? && project[key].Table? {
        var inner := MergeTables(merged[key].entries, project[key].entries);
        merged := merged[key := Table(inner)];
      } else {
        merged := merged[key := project[key]];
      }
      remaining := remaining - {key};
      taken := taken[key := project[key]];
    }
    assert taken == project;
  }

  // ------------------------------------------------------------------ lookup

  /** The value at the end of a path of keys, all but the last leading to tables. */
  function Lookup(document: Document, path: seq<string>): Option<Value>
    requires path != []
    decreases |path|
  {
    if path[0] !in document then None
    else if |path| == 1 then Some(document[path[0]])
    else if document[path[0]].Table? then Lookup(document[path[0]].entries, path[1..])
    else None
  }

  /** A path of two keys is a section and a field of it. */
  lemma LookupField(document: Document, section: string, field: string)
    ensures Lookup(document, [section, field]) ==
      if section in document && document[section].Table? && field in document[section].entries then
        Some(document[section].entries[field])
      else None
  {
    assert [section, field][1..] == [field];
  }

  /** The document holds something other than a table on the way to the path. */
  predicate Shadows(document: Document, path: seq<string>)
    requires path != []
    decreases |path|
  {
    && |path| > 1
    && path[0] in document
    && (document[path[0]].Table? ==> Shadows(document[path[0]].entries, path[1..]))
  }

  /** Along every path the project wins, except that two tables merge; the
      global value shows through only where the project has nothing, and nothing
      in the way. */
  lemma {:induction false} MergedLookup(global: Document, project: Document, path: seq<string>)
    requires path != []
    ensures Lookup(Merged(global, project), path) ==
      match (Lookup(global, path), Lookup(project, path))
      case (Some(Table(g)), Some(Table(p))) => Some(Table(Merged(g, p)))
      case (_, Some(p)) => Some(p)
      case (g, None) => if Shadows(project, path) then None else g
    decreases |path|
  {
    var key := path[0];
    if |path| > 1 && key in global && key in project && global[key].Table? && project[key].Table? {
      MergedLookup(global[key].entries, project[key].entries, path[1..]);
    }
  }

  // -------------------------------------------------------------------- laws

  lemma {:induction false} MergeWithItself(a: Document)
    ensures Merged(a, a) == a
    decreases Table(a)
  {
    forall key | key in a
      ensures Merged(a, a)[key] == a[key]
    {
      if a[key].Table? {
        MergeWithItself(a[key].entries);
      }
    }
  }

  lemma {:induction false} MergeAbsorbs(a: Document, b: Document)
    ensures Merged(Merged(a, b), b) == Merged(a, b)
    decreases Table(b)
  {
    forall key | key in Merged(a, b)
      ensures Merged(Merged(a, b), b)[key] == Merged(a, b)[key]
    {
      if key in b && b[key].Table? {
        if key in a && a[key].Table? {
          MergeAbsorbs(a[key].entries, b[key].entries);
        } else {
          MergeWithItself(b[key].entries);
        }
      }
    }
  }

  /** The empty document is an identity on both sides, and merging the same
      project again, or a document over itself, changes nothing. */
  lemma MergeLaws(a: Document, b: Document)
    ensures Merged(map[], a) == a && Merged(a, map[]) == a
    ensures Merged(a, a) == a
    ensures Merged(Merged(a, b), b) == Merged(a, b)
  {
    MergeWithItself(a);
    MergeAbsorbs(a, b);
  }

  /** Every entry of `a` is overridden when `c` is laid over it. */
  predicate Covered(a: Document, c: Document)
    decreases Table(a)
  {
    forall key :: key in a ==>
      && key in c
      && (a[key].Table? && c[key].Table? ==> Covered(a[key].entries, c[key].entries))
  }

  lemma {:induction false} CoveredIff(a: Document, c: Document)
    ensures Covered(a, c) <==> Merged(a, c) == c
    decreases Table(a)
  {
    forall key | key in a && key in c && a[key].Table? && c[key].Table?
      ensures Covered(a[key].entries, c[key].entries) <==> Merged(a, c)[key] == c[key]
    {
      CoveredIff(a[key].entries, c[key].entries);
    }
    if Merged(a, c) == c {
      forall key | key in a
        ensures key in c
      {
        assert key in Merged(a, c);
      }
    } else if Covered(a, c) {
      assert Merged(a, c).Keys == c.Keys;
    }
  }

  /** Nothing but a table stands in `b` between tables of `a` and `c`, unless
      `c` overrides all of the table in `a` anyway. */
  predicate Associates(a: Document, b: Document, c: Document)
    decreases Table(c), 1
  {
    forall key :: key in a && key in b && key in c ==> AssociatesAt(a, b, c, key)
  }

  predicate AssociatesAt(a: Document, b: Document, c: Document, key: string)
    decreases Table(c), 0
  {
    key in a && key in b && key in c && a[key].Table? && c[key].Table? ==>
      if b[key].Table? then Associates(a[key].entries, b[key].entries, c[key].entries)
      else Covered(a[key].entries, c[key].entries)
  }

  /** The two groupings agree on an entry exactly if it associates. */
  lemma {:induction false} EntryAssociatesIff(a: Document, b: Document, c: Document, key: string)
    requires key in a || key in b || key in c
    ensures Merged(Merged(a, b), c)[key] == Merged(a, Merged(b, c))[key] <==> AssociatesAt(a, b, c, key)
    decreases Table(c), 0
  {
    if key in a && key in b && key in c && a[key].Table? && c[key].Table? {
      if b[key].Table? {
        MergeAssociatesIff(a[key].entries, b[key].entries, c[key].entries);
      } else {
        CoveredIff(a[key].entries, c[key].entries);
      }
    }
  }

  /** Merging is associative exactly on the documents `Associates` names. */
  lemma {:induction false} MergeAssociatesIff(a: Document, b: Document, c: Document)
    ensures Merged(Merged(a, b), c) == Merged(a, Merged(b, c)) <==> Associates(a, b, c)
    decreases Table(c), 1
  {
    var left := Merged(Merged(a, b), c);
    var right := Merged(a, Merged(b, c));
    forall key | key in left
      ensures left[key] == right[key] <==> AssociatesAt(a, b, c, key)
    {
      EntryAssociatesIff(a, b, c, key);
    }
    SameEntries(left, right);
  }

  lemma SameEntries(left: Document, right: Document)
    requires left.Keys == right.Keys
    ensures left == right <==> forall key :: key in left ==> left[key] == right[key]
  {
  }

  /** The documents agree on which of their common paths lead to tables. */
  predicate SameTables(a: Document, b: Document)
    decreases Table(a)
  {
    forall key :: key in a && key in b ==>
      && (a[key].Table? <==> b[key].Table?)
      && (a[key].Table? && b[key].Table? ==> SameTables(a[key].entries, b[key].entries))
  }

  /** Agreement of the lower two layers is enough, whatever lies on top. */
  lemma {:induction false} SameTablesAssociate(a: Document, b: Document, c: Document)
    requires SameTables(a, b)
    ensures Merged(Merged(a, b), c) == Merged(a, Merged(b, c))
    decreases Table(c)
  {
    forall key | key in a && key in b && key in c && a[key].Table? && c[key].Table?
      ensures b[key].Table? && Associates(a[key].entries, b[key].entries, c[key].entries)
    {
      SameTablesAssociate(a[key].entries, b[key].entries, c[key].entries);
      MergeAssociatesIff(a[key].entries, b[key].entries, c[key].entries);
    }
    MergeAssociatesIff(a, b, c);
  }

  /** Table, scalar, table at one key: the smallest documents on which the two
      groupings differ. */
  lemma TableScalarTable()
    ensures var a := map["k" := Table(map["x" := Integer(1)])];
            var b := map["k" := Integer(2)];
            var c := map["k" := Table(map["y" := Integer(3)])];
            Merged(Merged(a, b), c) != Merged(a, Merged(b, c))
  {
    var a := map["k" := Table(map["x" := Integer(1)])];
    var b := map["k" := Integer(2)];
    var c := map["k" := Table(map["y" := Integer(3)])];
    MergeAssociatesIff(a, b, c);
    assert "x" in a["k"].entries && "x" !in c["k"].entries;
    assert "k" in a && "k" in b && "k" in c;
  }
}
