/** mustUpdate of src/modules/app/user/strategies/User.strategy.ts: a recursive comparison of an
    entity's attributes with the attributes of an input. */
module UserStrategy {

  /** A JavaScript value as the comparison sees it; arrays are objects whose keys are indices. */
  datatype Attr = Undefined | Null | Bool(b: bool) | Num(n: int) | Str(s: string) | Obj(fields: map<string, Attr>)

  predicate Truthy(v: Attr) {
    match v
    case Undefined => false
    case Null => false
    case Bool(b) => b
    case Num(n) => n != 0
    case Str(s) => s != ""
    case Obj(_) => true
  }

  /** The values JavaScript takes for false. */
  lemma FalsyValues(v: Attr)
    ensures !Truthy(v) <==> v in {Undefined, Null, Bool(false), Num(0), Str("")}
  {}

  function Lookup(v: Attr, key: string): Attr {
    if v.Obj? && key in v.fields then v.fields[key] else Undefined
  }

  // ---------- what the comparison is for ----------

  /** The value at the end of a chain of keys; undefined as soon as the chain leaves the object. */
  function At(v: Attr, path: seq<string>): Attr
    decreases |path|
  {
    if path == [] then v else At(Lookup(v, path[0]), path[1..])
  }

  predicate IsLeaf(v: Attr) {
    !v.Undefined? && !v.Obj?
  }

  /** Every value on the way, the end excepted, is truthy. */
  ghost predicate TruthyAlong(v: Attr, path: seq<string>)
    decreases |path|
  {
    path == [] || (Truthy(v) && TruthyAlong(Lookup(v, path[0]), path[1..]))
  }

  ghost predicate DiffersAt(entity: Attr, input: Attr, path: seq<string>) {
    && path != [] && IsLeaf(At(input, path)) && TruthyAlong(entity, path)
    && At(entity, path) != At(input, path)
  }

  /** Some chain of keys of the input ends in a defined leaf, is truthy all the way in the entity,
      and ends there in another value. */
  ghost predicate Differs(entity: Attr, input: Attr) {
    exists path :: DiffersAt(entity, input, path)
  }

  lemma DiffersAtCons(entity: Attr, input: Attr, key: string, rest: seq<string>)
    ensures DiffersAt(entity, input, [key] + rest) <==>
            Truthy(entity) &&
            if rest == [] then IsLeaf(Lookup(input, key)) && Lookup(input, key) != Lookup(entity, key)
            else DiffersAt(Lookup(entity, key), Lookup(input, key), rest)
  {
    var path := [key] + rest;
    assert path[1..] == rest && path[0] == key;
    assert At(entity, path) == At(Lookup(entity, key), rest) && At(input, path) == At(Lookup(input, key), rest);
    assert TruthyAlong(entity, path) <==> Truthy(entity) && TruthyAlong(Lookup(entity, key), rest);
  }

  /** One key of the input, at which the source sets its local flag hasValueChanged. */
  ghost predicate ValueChanged(entityField: Attr, inputField: Attr) {
    if inputField.Obj? then Differs(entityField, inputField)
    else inputField != Undefined && inputField != entityField
  }

  lemma DiffersByKey(entity: Attr, input: Attr)
    ensures Differs(entity, input) <==>
            Truthy(entity) && input.Obj? &&
            exists key :: key in input.fields && ValueChanged(Lookup(entity, key), input.fields[key])
  {
    if path :| DiffersAt(entity, input, path) {
      assert path == [path[0]] + path[1..];
      DiffersAtCons(entity, input, path[0], path[1..]);
      if path[1..] != [] {
        LeafBelowObject(Lookup(input, path[0]), path[1..]);
      }
      assert path[0] in input.fields && ValueChanged(Lookup(entity, path[0]), input.fields[path[0]]);
    }
    if Truthy(entity) && input.Obj? {
      if key :| key in input.fields && ValueChanged(Lookup(entity, key), input.fields[key]) {
        var rest: seq<string> := [];
        if input.fields[key].Obj? {
          rest :| DiffersAt(Lookup(entity, key), input.fields[key], rest);
        }
        DiffersAtCons(entity, input, key, rest);
      }
    }
  }

  lemma LeafBelowObject(v: Attr, path: seq<string>)
    requires path != [] && IsLeaf(At(v, path))
    ensures v.Obj? && path[0] in v.fields
  {
    if Lookup(v, path[0]) == Undefined {
      UndefinedBelow(path[1..]);
    }
  }

  lemma {:induction false} UndefinedBelow(path: seq<string>)
    ensures At(Undefined, path) == Undefined
  {
    if path != [] {
      UndefinedBelow(path[1..]);
    }
  }

  method MustUpdate(entityAttributes: Attr, inputAttributes: Attr) returns (mustUpdate: bool)
    ensures mustUpdate <==> Differs(entityAttributes, inputAttributes)
    decreases inputAttributes
  {
    DiffersByKey(entityAttributes, inputAttributes);
    if !Truthy(entityAttributes) || !Truthy(inputAttributes) {
      return false;
    }
    mustUpdate := false;
    var keys := if inputAttributes.Obj? then inputAttributes.fields.Keys else {};
    ghost var all := keys;
    while keys != {}
      invariant keys <= all
      invariant mustUpdate <==>
                exists key ::
                  key in all - keys && ValueChanged(Lookup(entityAttributes, key), Lookup(inputAttributes, key))
      decreases keys
    {
      var key :| key in keys;
      var inputField, entityField := inputAttributes.fields[key], Lookup(entityAttributes, key);
      var isUpdatedField := inputField != Undefined;
      var hasValueChanged := false;
      if isUpdatedField {
        if inputField.Obj? {
          hasValueChanged := MustUpdate(entityField, inputField);
        } else {
          hasValueChanged := inputField != entityField;
        }
      }
      if isUpdatedField && hasValueChanged {
        mustUpdate := true;
      }
      assert hasValueChanged <==> ValueChanged(entityField, inputField);
      assert all - (keys - {key}) == (all - keys) + {key};
      keys := keys - {key};
    }
  }

  // ---------- the write the comparison guards ----------

  predicate HasLeaf(v: Attr) {
    if v.Obj? then exists key | key in v.fields :: HasLeaf(v.fields[key]) else v != Undefined
  }

  /** The entity with every defined leaf of the input written over it, at any depth. */
  function Overlay(entity: Attr, input: Attr): Attr
    decreases input
  {
    if !HasLeaf(input) then entity
    else if !input.Obj? then input
    else
      var own := if entity.Obj? then entity.fields else map[];
      Obj(map key | key in own.Keys + (set k | k in input.fields && HasLeaf(input.fields[k])) ::
        if key in input.fields then Overlay(Lookup(entity, key), input.fields[key]) else own[key])
  }

  /** What the input does not mention stays. */
  lemma OverlayElsewhere(entity: Attr, input: Attr, key: string)
    requires input.Obj? && key !in input.fields
    ensures Lookup(Overlay(entity, input), key) == Lookup(entity, key)
  {}

  lemma OverlayKeys(entity: Attr, input: Attr)
    requires entity.Obj? && input.Obj? && entity.fields.Keys == input.fields.Keys
    ensures Overlay(entity, input).Obj? && Overlay(entity, input).fields.Keys == entity.fields.Keys
  {
    if HasLeaf(input) {
      var own := entity.fields;
      assert own.Keys + (set k | k in input.fields && HasLeaf(input.fields[k])) == own.Keys;
    }
  }

  lemma OverlayEntry(entity: Attr, input: Attr, key: string)
    requires entity.Obj? && input.Obj? && key in entity.fields && key in input.fields
    ensures Overlay(entity, input).Obj? && key in Overlay(entity, input).fields
    ensures Overlay(entity, input).fields[key] == Overlay(entity.fields[key], input.fields[key])
  {
    if !HasLeaf(input) {
      assert !HasLeaf(input.fields[key]);
    }
  }

  lemma SameFields(v: Attr, w: Attr)
    requires v.Obj? && w.Obj? && v.fields.Keys == w.fields.Keys
             && forall key | key in v.fields :: v.fields[key] == w.fields[key]
    ensures v == w
  {
    assert v.fields == w.fields;
  }

  /** The overlay holds the input's leaves. */
  lemma {:induction false} OverlayAt(entity: Attr, input: Attr, path: seq<string>)
    requires IsLeaf(At(input, path))
    ensures HasLeaf(input) && At(Overlay(entity, input), path) == At(input, path)
    decreases |path|
  {
    if path != [] {
      LeafBelowObject(input, path);
      OverlayAt(Lookup(entity, path[0]), input.fields[path[0]], path[1..]);
    }
  }

  lemma {:induction false} LeafPath(v: Attr) returns (path: seq<string>)
    requires HasLeaf(v)
    ensures IsLeaf(At(v, path))
  {
    path := [];
    if v.Obj? {
      var key :| key in v.fields && HasLeaf(v.fields[key]);
      var rest := LeafPath(v.fields[key]);
      path := [key] + rest;
      assert path[1..] == rest;
    }
  }

  ghost predicate HoldsLeaves(entity: Attr, input: Attr) {
    forall path | IsLeaf(At(input, path)) :: At(entity, path) == At(input, path)
  }

  lemma KeyHeld(entity: Attr, input: Attr, key: string)
    requires input.Obj? && key in input.fields
    requires HoldsLeaves(entity, input)
    ensures HasLeaf(input.fields[key]) ==> entity.Obj? && key in entity.fields
    ensures HoldsLeaves(Lookup(entity, key), input.fields[key])
  {
    forall p | IsLeaf(At(input.fields[key], p))
      ensures entity.Obj? && key in entity.fields && At(Lookup(entity, key), p) == At(input.fields[key], p)
    {
      assert ([key] + p)[1..] == p;
      assert At(input, [key] + p) == At(input.fields[key], p);
      assert At(entity, [key] + p) == At(Lookup(entity, key), p);
      LeafBelowObject(entity, [key] + p);
    }
    if HasLeaf(input.fields[key]) {
      var p := LeafPath(input.fields[key]);
    }
  }

  /** The overlay is the entity exactly when the entity already holds every leaf of the input. */
  lemma {:induction false} OverlayFixedIff(entity: Attr, input: Attr)
    ensures Overlay(entity, input) == entity <==> HoldsLeaves(entity, input)
    decreases input
  {
    if Overlay(entity, input) == entity {
      forall path | IsLeaf(At(input, path)) ensures At(entity, path) == At(input, path) {
        OverlayAt(entity, input, path);
      }
    }
    if HoldsLeaves(entity, input) {
      OverlayFixed(entity, input);
    }
  }

  lemma {:induction false} OverlayFixed(entity: Attr, input: Attr)
    requires HoldsLeaves(entity, input)
    ensures Overlay(entity, input) == entity
    decreases input
  {
    if HasLeaf(input) && !input.Obj? {
      assert At(input, []) == input && At(entity, []) == entity;
    } else if HasLeaf(input) {
      forall k | k in input.fields ensures Overlay(Lookup(entity, k), input.fields[k]) == Lookup(entity, k) {
        KeyHeld(entity, input, k);
        OverlayFixed(Lookup(entity, k), input.fields[k]);
      }
      forall k | k in input.fields && HasLeaf(input.fields[k]) ensures entity.Obj? && k in entity.fields {
        KeyHeld(entity, input, k);
      }
      assert Overlay(entity, input).fields == entity.fields;
    }
  }

  /** A leaf of the input below a value the entity does not have: the comparison never gets there. */
  ghost predicate Blocked(entity: Attr, input: Attr) {
    exists path :: IsLeaf(At(input, path)) && !TruthyAlong(entity, path)
  }

  lemma {:induction false} FalsyBelow(v: Attr, path: seq<string>)
    requires !TruthyAlong(v, path)
    ensures At(v, path) == Undefined
    decreases |path|
  {
    if !Truthy(v) {
      UndefinedBelow(path[1..]);
    } else {
      FalsyBelow(Lookup(v, path[0]), path[1..]);
    }
  }

  lemma LeafCases(entity: Attr, input: Attr, path: seq<string>)
    requires input.Obj? && IsLeaf(At(input, path))
    ensures At(entity, path) == At(input, path) || DiffersAt(entity, input, path) || !TruthyAlong(entity, path)
    ensures !TruthyAlong(entity, path) ==> At(entity, path) != At(input, path)
  {
    if !TruthyAlong(entity, path) {
      FalsyBelow(entity, path);
    }
  }

  /** mustUpdate says no exactly when the write would change nothing, unless a nested object that
      the input has is missing from the entity; then it can say no to a write that would. */
  lemma GateIsExact(entity: Attr, input: Attr)
    requires input.Obj?
    ensures Overlay(entity, input) == entity <==> !Differs(entity, input) && !Blocked(entity, input)
  {
    OverlayFixedIff(entity, input);
    if !HoldsLeaves(entity, input) {
      var path :| IsLeaf(At(input, path)) && At(entity, path) != At(input, path);
      LeafCases(entity, input, path);
    } else if path :| IsLeaf(At(input, path)) && !TruthyAlong(entity, path) {
      LeafCases(entity, input, path);
    }
  }

  /** After the write the comparison says no to the same input, whatever the entity was. */
  lemma OverlaySettles(entity: Attr, input: Attr)
    requires input.Obj?
    ensures !Differs(Overlay(entity, input), input)
  {
    if path :| DiffersAt(Overlay(entity, input), input, path) {
      OverlayAt(entity, input, path);
    }
  }

  /** The gap: { details: { age: 31 } } over an entity without details. */
  lemma MissingObjectIsBlocked(age: int)
    ensures var input := Obj(map["details" := Obj(map["age" := Num(age)])]);
            && !Differs(Obj(map[]), input) && Overlay(Obj(map[]), input) != Obj(map[])
  {
    var input := Obj(map["details" := Obj(map["age" := Num(age)])]);
    DiffersByKey(Obj(map[]), input);
    DiffersByKey(Undefined, input.fields["details"]);
    assert HasLeaf(input.fields["details"].fields["age"]);
    assert HasLeaf(input.fields["details"]);
    assert "details" in Overlay(Obj(map[]), input).fields;
  }
}
