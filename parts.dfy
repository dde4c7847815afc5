/**
 * The serialisable parts of `components/material.hpp`, `components/finish.hpp`
 * and the body-tube component of `components/bodyTube.hpp`/`.cpp`: clamping
 * setters, and the JSON mapping in both directions.
 */
module Parts {
  import opened Wrappers
  import opened Maths
  import opened Json

  /** The component kinds a body tube refers to. */
  datatype ComponentType = BODY_TUBE | MOTOR | FIN_SET

  /** The JSON form of a material (`density`) or a surface finish (`roughness`): a name and one number. */
  function NamedNumberJson(name: string, key: string, value: real): (r: Json)
    requires key != "name"
    ensures r.JObject? && r.fields.Keys == {"name", key}
    ensures r.fields["name"] == JString(name) && r.fields[key] == JNumber(value)
  {
    JObject(map["name" := JString(name), key := JNumber(value)])
  }

  /** The name and raw density `Material::fromJson` reads, before the constructor clamps it. */
  function MaterialFields(j: Json): (r: Result<(string, real), JsonError>)
    ensures r.Ok? <==> StringAt(j, "name").Ok? && NumberAt(j, "density").Ok?
    ensures r.Ok? ==> j.fields["name"] == JString(r.value.0) && j.fields["density"] == JNumber(r.value.1)
  {
    var name :- StringAt(j, "name");
    var density :- NumberAt(j, "density");
    Ok((name, density))
  }

  /** Reading back what was written gives the same name and density. */
  lemma MaterialRoundTrip(name: string, density: real)
    ensures MaterialFields(NamedNumberJson(name, "density", density)) == Ok((name, density))
  {
  }

  /** A document missing the density key is refused with that key named. */
  lemma MaterialMissingDensity(name: string)
    ensures MaterialFields(JObject(map["name" := JString(name)])) == Err(OutOfRange("density"))
  {
  }

  class Material {
    var name: string
    var density: real

    /** The density is never negative once set through the constructor or the setter. */
    predicate Valid()
      reads this
    {
      density >= 0.0
    }

    constructor(name: string, density: real)
      ensures this.name == name && this.density == ClampNonNegative(density)
      ensures Valid()
    {
      this.name := name;
      this.density := ClampNonNegative(density);
    }

    function GetDensity(): (r: real)
      reads this
      ensures Valid() ==> r >= 0.0
    {
      density
    }

    method SetDensity(density: real)
      modifies this
      ensures this.density == ClampNonNegative(density) && name == old(name)
      ensures Valid()
    {
      this.density := ClampNonNegative(density);
    }

    function ToJson(): (r: Json)
      reads this
      ensures r.JObject? && r.fields.Keys == {"name", "density"}
      ensures MaterialFields(r) == Ok((name, density))
    {
      MaterialRoundTrip(name, density);
      NamedNumberJson(name, "density", density)
    }

    /** `Material::fromJson`: a new material, or the error the JSON library throws. */
    static method FromJson(j: Json) returns (r: Result<Material, JsonError>)
      ensures r.Ok? <==> MaterialFields(j).Ok?
      ensures r.Err? ==> r.error == MaterialFields(j).error
      ensures r.Ok? ==> fresh(r.value) && r.value.Valid()
      ensures r.Ok? ==> r.value.name == MaterialFields(j).value.0
      ensures r.Ok? ==> r.value.density == ClampNonNegative(MaterialFields(j).value.1)
    {
      match MaterialFields(j)
      case Err(e) => r := Err(e);
      case Ok((name, density)) =>
        var m := new Material(name, density);
        r := Ok(m);
    }
  }

  /** A material rebuilt from its own JSON has the same name and density. */
  lemma MaterialFromOwnJson(m: Material)
    requires m.Valid()
    ensures MaterialFields(m.ToJson()).Ok?
    ensures MaterialFields(m.ToJson()).value.0 == m.name
    ensures ClampNonNegative(MaterialFields(m.ToJson()).value.1) == m.density
  {
  }

  function FinishFields(j: Json): (r: Result<(string, real), JsonError>)
    ensures r.Ok? <==> StringAt(j, "name").Ok? && NumberAt(j, "roughness").Ok?
    ensures r.Ok? ==> j.fields["name"] == JString(r.value.0) && j.fields["roughness"] == JNumber(r.value.1)
  {
    var name :- StringAt(j, "name");
    var roughness :- NumberAt(j, "roughness");
    Ok((name, roughness))
  }

  lemma FinishRoundTrip(name: string, roughness: real)
    ensures FinishFields(NamedNumberJson(name, "roughness", roughness)) == Ok((name, roughness))
  {
  }

  class Finish {
    var name: string
    var roughness: real

    predicate Valid()
      reads this
    {
      roughness >= 0.0
    }

    constructor(name: string, roughness: real)
      ensures this.name == name && this.roughness == ClampNonNegative(roughness)
      ensures Valid()
    {
      this.name := name;
      this.roughness := ClampNonNegative(roughness);
    }

    function GetRoughness(): (r: real)
      reads this
      ensures Valid() ==> r >= 0.0
    {
      roughness
    }

    method SetRoughness(roughness: real)
      modifies this
      ensures this.roughness == ClampNonNegative(roughness) && name == old(name)
      ensures Valid()
    {
      this.roughness := ClampNonNegative(roughness);
    }

    function ToJson(): (r: Json)
      reads this
      ensures r.JObject? && r.fields.Keys == {"name", "roughness"}
      ensures FinishFields(r) == Ok((name, roughness))
    {
      FinishRoundTrip(name, roughness);
      NamedNumberJson(name, "roughness", roughness)
    }

    /** `Finish::fromJson`: always a new finish when the keys are present. */
    static method FromJson(j: Json) returns (r: Result<Finish, JsonError>)
      ensures r.Ok? <==> FinishFields(j).Ok?
      ensures r.Err? ==> r.error == FinishFields(j).error
      ensures r.Ok? ==> fresh(r.value) && r.value.Valid()
      ensures r.Ok? ==> r.value.name == FinishFields(j).value.0
      ensures r.Ok? ==> r.value.roughness == ClampNonNegative(FinishFields(j).value.1)
    {
      match FinishFields(j)
      case Err(e) => r := Err(e);
      case Ok((name, roughness)) =>
        var f := new Finish(name, roughness);
        r := Ok(f);
    }
  }

  /** The dimensions a body tube stores. */
  datatype TubeProperties = TubeProperties(height: real, diameter: real, thickness: real, filled: bool)

  predicate NonNegative(p: TubeProperties)
  {
    p.height >= 0.0 && p.diameter >= 0.0 && p.thickness >= 0.0
  }

  /** `propertiesToJson`: exactly the four keys. */
  function TubeJson(p: TubeProperties): (r: Json)
    ensures r.JObject? && r.fields.Keys == {"height", "diameter", "thickness", "filled"}
    ensures r.fields["height"] == JNumber(p.height) && r.fields["diameter"] == JNumber(p.diameter)
    ensures r.fields["thickness"] == JNumber(p.thickness) && r.fields["filled"] == JBool(p.filled)
  {
    JObject(map["height" := JNumber(p.height), "diameter" := JNumber(p.diameter),
                "thickness" := JNumber(p.thickness), "filled" := JBool(p.filled)])
  }

  /** Each of the four keys is present with a value of the right kind. */
  predicate PropertiesReadable(p: Json)
  {
    NumberAt(p, "height").Ok? && NumberAt(p, "diameter").Ok? && NumberAt(p, "thickness").Ok? && BoolAt(p, "filled").Ok?
  }

  /**
   * The four values `jsonToProperties` reads from `j["properties"]`; every
   * read happens before the first setter runs, so a failure changes nothing.
   */
  function TubeFields(j: Json): (r: Result<TubeProperties, JsonError>)
    ensures r.Ok? <==> (At(j, "properties").Ok? && PropertiesReadable(j.fields["properties"]))
    ensures r.Ok? ==> (var p := j.fields["properties"].fields;
                       p["height"] == JNumber(r.value.height) && p["diameter"] == JNumber(r.value.diameter)
                       && p["thickness"] == JNumber(r.value.thickness) && p["filled"] == JBool(r.value.filled))
  {
    var p :- At(j, "properties");
    var height :- NumberAt(p, "height");
    var diameter :- NumberAt(p, "diameter");
    var thickness :- NumberAt(p, "thickness");
    var filled :- BoolAt(p, "filled");
    Ok(TubeProperties(height, diameter, thickness, filled))
  }

  /** What the clamping setters make of requested values. */
  function Clamped(p: TubeProperties): (r: TubeProperties)
    ensures NonNegative(r) && r.filled == p.filled
    ensures NonNegative(p) ==> r == p
  {
    TubeProperties(ClampNonNegative(p.height), ClampNonNegative(p.diameter), ClampNonNegative(p.thickness), p.filled)
  }

  /** The component document wraps the properties under the key "properties". */
  function ComponentJson(p: TubeProperties): Json
  {
    JObject(map["properties" := TubeJson(p)])
  }

  /** Writing a tube's properties and reading them back through the setters changes nothing. */
  lemma TubeRoundTrip(p: TubeProperties)
    requires NonNegative(p)
    ensures TubeFields(ComponentJson(p)).Ok?
    ensures Clamped(TubeFields(ComponentJson(p)).value) == p
  {
    var j := ComponentJson(p);
    assert At(j, "properties") == Ok(TubeJson(p));
    assert TubeFields(j) == Ok(p);
  }

  /** A negative stored length survives the round trip only as 0. */
  lemma TubeRoundTripClampsNegative()
    ensures var p := TubeProperties(-1.0, 0.0, 0.0, false);
            TubeFields(ComponentJson(p)).Ok?
            && Clamped(TubeFields(ComponentJson(p)).value) == TubeProperties(0.0, 0.0, 0.0, false)
  {
    var p := TubeProperties(-1.0, 0.0, 0.0, false);
    var j := ComponentJson(p);
    assert At(j, "properties") == Ok(TubeJson(p));
    assert TubeFields(j) == Ok(p);
  }

  class BodyTube {
    var height: real
    var diameter: real
    var thickness: real
    var filled: bool

    function Properties(): (r: TubeProperties)
      reads this
      ensures r.height == height && r.diameter == diameter && r.thickness == thickness && r.filled == filled
    {
      TubeProperties(height, diameter, thickness, filled)
    }

    /** The default constructor keeps the in-class defaults. */
    constructor Default()
      ensures Properties() == TubeProperties(0.0, 0.0, 0.0, false)
    {
      height := 0.0;
      diameter := 0.0;
      thickness := 0.0;
      filled := false;
    }

    /** The value constructor assigns the fields directly, so negatives are kept. */
    constructor(height: real, diameter: real, thickness: real, filled: bool)
      ensures Properties() == TubeProperties(height, diameter, thickness, filled)
    {
      this.height := height;
      this.diameter := diameter;
      this.thickness := thickness;
      this.filled := filled;
    }

    method SetHeight(height: real)
      modifies this
      ensures Properties() == old(Properties()).(height := ClampNonNegative(height))
    {
      this.height := ClampNonNegative(height);
    }

    method SetDiameter(diameter: real)
      modifies this
      ensures Properties() == old(Properties()).(diameter := ClampNonNegative(diameter))
    {
      this.diameter := ClampNonNegative(diameter);
    }

    method SetThickness(thickness: real)
      modifies this
      ensures Properties() == old(Properties()).(thickness := ClampNonNegative(thickness))
    {
      this.thickness := ClampNonNegative(thickness);
    }

    method SetFilled(filled: bool)
      modifies this
      ensures Properties() == old(Properties()).(filled := filled)
    {
      this.filled := filled;
    }

    function Type(): (r: ComponentType)
      ensures r == BODY_TUBE
    {
      BODY_TUBE
    }

    /** The kinds a body tube may hold, in this order. */
    function AllowedComponents(): (r: seq<ComponentType>)
      ensures forall k :: k in r <==> k == MOTOR || k == FIN_SET
      ensures |r| == 2 && r[0] == MOTOR && Type() !in r
    {
      [MOTOR, FIN_SET]
    }

    function PropertiesToJson(): (r: Json)
      reads this
      ensures r.JObject? && r.fields.Keys == {"height", "diameter", "thickness", "filled"}
      ensures NonNegative(Properties()) ==>
                var back := TubeFields(JObject(map["properties" := r]));
                back.Ok? && Clamped(back.value) == Properties()
    {
      if NonNegative(Properties()) then TubeRoundTrip(Properties()); TubeJson(Properties())
      else TubeJson(Properties())
    }

    /** `jsonToProperties`: all four reads, then the four setters; on a failed read nothing changes. */
    method JsonToProperties(j: Json) returns (r: Result<(), JsonError>)
      modifies this
      ensures r.Ok? <==> TubeFields(j).Ok?
      ensures r.Err? ==> r.error == TubeFields(j).error && Properties() == old(Properties())
      ensures r.Ok? ==> Properties() == Clamped(TubeFields(j).value)
    {
      match TubeFields(j)
      case Err(e) =>
        r := Err(e);
      case Ok(p) =>
        SetHeight(p.height);
        SetDiameter(p.diameter);
        SetThickness(p.thickness);
        SetFilled(p.filled);
        r := Ok(());
    }
  }
}
