/** The field projection of `LocationSerializer.__init__`: given a `fields`
    list, every declared field not in it is popped from the serializer's
    field map. */
module FieldProjection {
  import opened Wrappers

  /** `Meta.fields`, in declaration order. */
  const LocationFields: seq<string> := ["id", "longitude", "latitude", "ip", "name", "domain"]

  /** The list the view passes when it builds the serializer for a POST. */
  const PostFields: seq<string> := ["id", "name", "ip", "domain"]

  /** The entries of `declared` that are in `allowed`, in their order. */
  function Project(declared: seq<string>, allowed: set<string>): seq<string> {
    if declared == [] then []
    else (if declared[0] in allowed then [declared[0]] else []) + Project(declared[1..], allowed)
  }

  /** `dict.pop(name)` on the ordered key list: the key goes, every other
      key stays. */
  function Pop(keys: seq<string>, name: string): (r: seq<string>)
    ensures forall f :: f in r <==> f in keys && f != name
    ensures |r| <= |keys|
    ensures name in keys ==> |r| < |keys|
  {
    if keys == [] then []
    else (if keys[0] == name then [] else [keys[0]]) + Pop(keys[1..], name)
  }

  function Elements(s: seq<string>): set<string> {
    set x | x in s
  }

  /** A projection keeps exactly the declared fields that are allowed. */
  lemma {:induction false} ProjectMembers(declared: seq<string>, allowed: set<string>)
    ensures forall f :: f in Project(declared, allowed) <==> f in declared && f in allowed
  {
    if declared != [] {
      ProjectMembers(declared[1..], allowed);
      assert declared == [declared[0]] + declared[1..];
    }
  }

  /** Allowing every declared field drops nothing. */
  lemma {:induction false} ProjectAll(declared: seq<string>, allowed: set<string>)
    requires Elements(declared) <= allowed
    ensures Project(declared, allowed) == declared
  {
    if declared != [] {
      assert declared[0] in Elements(declared);
      assert Elements(declared[1..]) <= Elements(declared);
      ProjectAll(declared[1..], allowed);
    }
  }

  /** Popping a field from a projection is projecting without that field. */
  lemma {:induction false} PopProject(declared: seq<string>, allowed: set<string>, name: string)
    ensures Pop(Project(declared, allowed), name) == Project(declared, allowed - {name})
  {
    if declared != [] {
      PopProject(declared[1..], allowed, name);
      var head := if declared[0] in allowed then [declared[0]] else [];
      PopAppend(head, Project(declared[1..], allowed), name);
    }
  }

  lemma {:induction false} PopAppend(a: seq<string>, b: seq<string>, name: string)
    ensures Pop(a + b, name) == Pop(a, name) + Pop(b, name)
  {
    if a == [] {
      assert a + b == b;
    } else {
      assert (a + b)[0] == a[0];
      assert (a + b)[1..] == a[1..] + b;
      PopAppend(a[1..], b, name);
    }
  }

  /** With the POST list, latitude and longitude are dropped and the other
      four fields stay, in declaration order. */
  lemma PostProjection()
    ensures Project(LocationFields, Elements(PostFields)) == ["id", "ip", "name", "domain"]
  {
    var allowed := Elements(PostFields);
    assert allowed == {"id", "name", "ip", "domain"};
    var fs := LocationFields;
    assert Project(fs[6..], allowed) == [];
    assert Project(fs[5..], allowed) == ["domain"];
    assert Project(fs[4..], allowed) == ["name", "domain"];
    assert Project(fs[3..], allowed) == ["ip", "name", "domain"];
    assert Project(fs[2..], allowed) == ["ip", "name", "domain"];
    assert Project(fs[1..], allowed) == ["ip", "name", "domain"];
  }

  class LocationSerializer {
    /** The keys of the serializer's field map, in order. */
    var fields: seq<string>

    /** `fields` is the optional keyword argument: when given, the fields it
        does not name are popped one by one. */
    constructor (requested: Option<seq<string>>)
      ensures requested.None? ==> fields == LocationFields
      ensures requested.Some? ==> fields == Project(LocationFields, Elements(requested.value))
    {
      fields := LocationFields;
      new;
      if requested.Some? {
        var allowed := Elements(requested.value);
        var existing := Elements(fields);
        var toDrop := existing - allowed;
        ProjectAll(LocationFields, allowed + toDrop);
        while toDrop != {}
          invariant toDrop !! allowed
          invariant fields == Project(LocationFields, allowed + toDrop)
          decreases toDrop
        {
          var name :| name in toDrop;
          PopProject(LocationFields, allowed + toDrop, name);
          assert (allowed + toDrop) - {name} == allowed + (toDrop - {name});
          fields := Pop(fields, name);
          toDrop := toDrop - {name};
        }
        assert allowed + toDrop == allowed;
      }
    }
  }
}
