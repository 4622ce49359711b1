/**
 * What the serializer learns from reflection: the properties a class
 * declares, the property table built from them (`_getClassProperties`), and
 * the default-valued instance that `unserialize('O:...')` creates without
 * running a constructor.
 */
module Reflection {
  import opened Wrappers
  import opened PhpArrays
  import opened PhpValues

  /** One entry of `ReflectionClass::getProperties()`. */
  datatype PropDecl = PropDecl(name: string, isStatic: bool, isPrivate: bool, default: Const)

  /** The declared classes of the program, by name, with their properties in reflection order. */
  type ClassTable = map<string, seq<PropDecl>>

  /** A property table: property name => reflected property, in reflection order. */
  type PropTable = seq<(string, PropDecl)>

  /** Within one class, reflection lists each property name once. */
  predicate DistinctNames(decls: seq<PropDecl>)
  {
    forall i, j :: 0 <= i < j < |decls| ==> decls[i].name != decls[j].name
  }

  /** `new ReflectionClass($type)->getProperties()`: `stdClass` declares none, an unknown class throws. */
  function ClassDecls(classes: ClassTable, cls: string): (r: Option<seq<PropDecl>>)
    ensures r.Some? <==> cls == STD_CLASS || cls in classes
    ensures cls == STD_CLASS ==> r == Some([])
  {
    if cls == STD_CLASS then Some([])
    else if cls in classes then Some(classes[cls])
    else None
  }

  /** Whether the current revision keeps a declared property in the table. */
  predicate Kept(d: PropDecl, skipPrivate: bool)
  {
    !d.isStatic && !(skipPrivate && d.isPrivate)
  }

  /**
   * The table `_getClassProperties` builds: each declaration in turn, static
   * ones omitted, private ones omitted when private properties are skipped,
   * stored under its name.
   */
  function PropertyTable(decls: seq<PropDecl>, skipPrivate: bool): (t: PropTable)
    ensures UniqueKeys(t)
    ensures forall e :: e in t ==> e.0 == e.1.name && e.1 in decls && Kept(e.1, skipPrivate)
    ensures forall d :: d in decls && Kept(d, skipPrivate) ==> HasKey(t, d.name)
    decreases |decls|
  {
    if decls == [] then []
    else
      var init := decls[..|decls| - 1];
      var d := decls[|decls| - 1];
      var t := PropertyTable(init, skipPrivate);
      assert forall e :: e in decls ==> e in init || e == d;
      if !Kept(d, skipPrivate) then t
      else
        PutUnique(t, d.name, d);
        assert forall e :: e in Put(t, d.name, d) ==> e in t || e == (d.name, d) by {
          PutMembers(t, d.name, d);
        }
        Put(t, d.name, d)
  }

  /** The entries of a put are the old entries and the new one. */
  lemma {:induction false} PutMembers(t: PropTable, k: string, d: PropDecl)
    ensures forall e :: e in Put(t, k, d) ==> e in t || e == (k, d)
  {
    if t != [] && t[0].0 != k {
      PutMembers(t[1..], k, d);
    }
  }

  /** The declarations the table keeps, in order: the reference reading of the loop. */
  function KeptDecls(decls: seq<PropDecl>, skipPrivate: bool): (t: PropTable)
    ensures forall e :: e in t <==> e.1 in decls && Kept(e.1, skipPrivate) && e.0 == e.1.name
  {
    if decls == [] then []
    else
      (if Kept(decls[0], skipPrivate) then [(decls[0].name, decls[0])] else [])
      + KeptDecls(decls[1..], skipPrivate)
  }

  /** With distinct names the table is exactly the kept declarations, in declaration order. */
  lemma {:induction false} PropertyTableIsKeptDecls(decls: seq<PropDecl>, skipPrivate: bool)
    requires DistinctNames(decls)
    ensures PropertyTable(decls, skipPrivate) == KeptDecls(decls, skipPrivate)
    decreases |decls|
  {
    if decls != [] {
      var init := decls[..|decls| - 1];
      var d := decls[|decls| - 1];
      var t := PropertyTable(init, skipPrivate);
      assert DistinctNames(init);
      PropertyTableIsKeptDecls(init, skipPrivate);
      var last := if Kept(d, skipPrivate) then [(d.name, d)] else [];
      KeptDeclsLast(decls, skipPrivate);
      if Kept(d, skipPrivate) {
        LastNameIsNew(decls, skipPrivate);
        calc {
          PropertyTable(decls, skipPrivate);
          Put(t, d.name, d);
          t + [(d.name, d)];
          KeptDecls(init, skipPrivate) + last;
        }
      } else {
        calc {
          PropertyTable(decls, skipPrivate);
          t;
          KeptDecls(init, skipPrivate) + last;
        }
      }
    }
  }

  lemma KeptDeclsLast(decls: seq<PropDecl>, skipPrivate: bool)
    requires decls != []
    ensures var d := decls[|decls| - 1];
      KeptDecls(decls, skipPrivate)
      == KeptDecls(decls[..|decls| - 1], skipPrivate) + (if Kept(d, skipPrivate) then [(d.name, d)] else [])
  {
    var init := decls[..|decls| - 1];
    var d := decls[|decls| - 1];
    assert decls == init + [d];
    KeptDeclsAppend(init, [d], skipPrivate);
    var last := if Kept(d, skipPrivate) then [(d.name, d)] else [];
    assert KeptDecls([d], skipPrivate) == last + KeptDecls([], skipPrivate);
  }

  /** With distinct names, the table of all but the last declaration lacks the last one's name. */
  lemma LastNameIsNew(decls: seq<PropDecl>, skip: bool)
    requires DistinctNames(decls) && decls != []
    ensures !HasKey(PropertyTable(decls[..|decls| - 1], skip), decls[|decls| - 1].name)
  {
    NameOutsideTable(decls, PropertyTable(decls[..|decls| - 1], skip));
  }

  /** With distinct names, a table holding only earlier declarations, each under its name, lacks the last one's name. */
  lemma NameOutsideTable(decls: seq<PropDecl>, t: PropTable)
    requires DistinctNames(decls) && decls != []
    requires forall e :: e in t ==> e.0 == e.1.name && e.1 in decls[..|decls| - 1]
    ensures !HasKey(t, decls[|decls| - 1].name)
  {
    var init := decls[..|decls| - 1];
    var d := decls[|decls| - 1];
    forall i | 0 <= i < |t| ensures Keys(t)[i] != d.name {
      assert t[i] in t;
      var j :| 0 <= j < |init| && init[j] == t[i].1;
      assert decls[j] == init[j];
    }
  }

  lemma {:induction false} KeptDeclsAppend(a: seq<PropDecl>, b: seq<PropDecl>, skipPrivate: bool)
    ensures KeptDecls(a + b, skipPrivate) == KeptDecls(a, skipPrivate) + KeptDecls(b, skipPrivate)
  {
    if a == [] {
      assert a + b == b;
    } else {
      var h := if Kept(a[0], skipPrivate) then [(a[0].name, a[0])] else [];
      calc {
        KeptDecls(a + b, skipPrivate);
        { assert (a + b)[0] == a[0] && (a + b)[1..] == a[1..] + b; }
        h + KeptDecls(a[1..] + b, skipPrivate);
        { KeptDeclsAppend(a[1..], b, skipPrivate); }
        h + (KeptDecls(a[1..], skipPrivate) + KeptDecls(b, skipPrivate));
      }
    }
  }

  /**
   * The table never holds a static property, and holds a declared private
   * property exactly when private properties are not skipped.
   */
  lemma TableKeepsPrivateIff(decls: seq<PropDecl>, skipPrivate: bool, d: PropDecl)
    requires DistinctNames(decls) && d in decls && d.isPrivate
    ensures (d.name, d) in PropertyTable(decls, skipPrivate) <==> !d.isStatic && !skipPrivate
    ensures forall e :: e in PropertyTable(decls, skipPrivate) ==> !e.1.isStatic
  {
    PropertyTableIsKeptDecls(decls, skipPrivate);
  }

  /** The instance properties of a class with their declared defaults, in declaration order. */
  function Defaults(decls: seq<PropDecl>): (f: seq<(string, Value)>)
    ensures |f| == |KeptDecls(decls, false)|
    ensures forall i :: 0 <= i < |f| ==>
      f[i] == (KeptDecls(decls, false)[i].0, ToValue(KeptDecls(decls, false)[i].1.default))
  {
    var k := KeptDecls(decls, false);
    seq(|k|, i requires 0 <= i < |k| => (k[i].0, ToValue(k[i].1.default)))
  }

  /** `unserialize('O:<len>:"<type>":0:{}')`: an instance with every property at its default. */
  function Instantiate(cls: string, decls: seq<PropDecl>): (o: Value)
    ensures o.Obj? && o.cls == cls
    ensures forall n :: HasKey(o.fields, n) <==> exists d :: d in decls && !d.isStatic && d.name == n
    ensures o.fields == Defaults(decls)
  {
    var f := Defaults(decls);
    assert forall n :: HasKey(f, n) ==> exists d :: d in decls && !d.isStatic && d.name == n by {
      forall n | HasKey(f, n) ensures exists d :: d in decls && !d.isStatic && d.name == n {
        var i :| 0 <= i < |f| && Keys(f)[i] == n;
        assert KeptDecls(decls, false)[i] in KeptDecls(decls, false);
      }
    }
    assert forall n :: (exists d :: d in decls && !d.isStatic && d.name == n) ==> HasKey(f, n) by {
      forall n | exists d :: d in decls && !d.isStatic && d.name == n ensures HasKey(f, n) {
        var d :| d in decls && !d.isStatic && d.name == n;
        var k := KeptDecls(decls, false);
        assert (d.name, d) in k;
        var i :| 0 <= i < |k| && k[i] == (d.name, d);
        assert Keys(f)[i] == n;
      }
    }
    Obj(cls, f)
  }
}
