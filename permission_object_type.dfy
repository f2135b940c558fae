/**
 * The kinds of object a permission can be about, as a possible-value
 * enumeration: each constant has a string id and a label, and a lookup finds
 * the constant with a given id.
 */
module PermissionObjectTypes {
  import opened Wrappers

  datatype PermissionObjectType = Table | Process | App | Widget | Special
  {
    function Id(): string
    {
      match this
      case Table => "Table"
      case Process => "Process"
      case App => "App"
      case Widget => "Widget"
      case Special => "Special"
    }

    function Label(): string
    {
      match this
      case Table => "Table"
      case Process => "Process"
      case App => "App"
      case Widget => "Widget"
      case Special => "Special"
    }

    /**
     * The id under which the enumeration offers this constant as a possible
     * value: it is the constant's label too, and looking it up gives back
     * this constant.
     */
    function PossibleValueId(): (r: string)
      ensures r == Label()
      ensures FirstWithId(Values, r) == Some(this)
    {
      IdIsLabel(this);
      GetByIdRoundTrip(this);
      Id()
    }

    /**
     * The label under which the enumeration offers this constant as a
     * possible value: it is the same string as the possible-value id.
     */
    function PossibleValueLabel(): (r: string)
      ensures r == PossibleValueId()
    {
      IdIsLabel(this);
      Label()
    }
  }

  /** The constants in declaration order. */
  const Values: seq<PermissionObjectType> := [Table, Process, App, Widget, Special]

  /** The first of `values` whose id is `id`, if any. */
  function FirstWithId(values: seq<PermissionObjectType>, id: string): (r: Option<PermissionObjectType>)
    ensures r.Some? ==> r.value in values && r.value.Id() == id
    ensures r.None? <==> forall v :: v in values ==> v.Id() != id
  {
    if |values| == 0 then None
    else if values[0].Id() == id then Some(values[0])
    else FirstWithId(values[1..], id)
  }

  /**
   * Looks a constant up by id: nothing for a missing id, otherwise the first
   * constant, in declaration order, whose id is equal to it.
   */
  method GetById(id: Option<string>) returns (r: Option<PermissionObjectType>)
    ensures id.None? ==> r.None?
    ensures id.Some? ==> r == FirstWithId(Values, id.value)
  {
    if id.None? {
      return None;
    }
    var k := 0;
    while k < |Values|
      invariant 0 <= k <= |Values|
      invariant FirstWithId(Values, id.value) == FirstWithId(Values[k..], id.value)
    {
      assert Values[k..][1..] == Values[k + 1..];
      if Values[k].Id() == id.value {
        return Some(Values[k]);
      }
      k := k + 1;
    }
    return None;
  }

  /** No two constants share an id. */
  lemma IdsAreDistinct()
    ensures forall i, j :: 0 <= i < j < |Values| ==> Values[i].Id() != Values[j].Id()
  {
  }

  /** Every constant is listed. */
  lemma EveryConstantListed(v: PermissionObjectType)
    ensures v in Values
  {
    match v
    case Table => assert Values[0] == v;
    case Process => assert Values[1] == v;
    case App => assert Values[2] == v;
    case Widget => assert Values[3] == v;
    case Special => assert Values[4] == v;
  }

  /** Every constant's id is its label. */
  lemma IdIsLabel(v: PermissionObjectType)
    ensures v.Id() == v.Label()
    ensures v.Id() in {"Table", "Process", "App", "Widget", "Special"}
  {
  }

  /** Looking a constant up by its own id finds that constant. */
  lemma {:induction false} GetByIdRoundTrip(v: PermissionObjectType)
    ensures FirstWithId(Values, v.Id()) == Some(v)
  {
    IdsAreDistinct();
    EveryConstantListed(v);
    var r := FirstWithId(Values, v.Id());
    assert r.Some?;
    var i :| 0 <= i < |Values| && Values[i] == r.value;
    var j :| 0 <= j < |Values| && Values[j] == v;
    assert i == j;
  }
}
