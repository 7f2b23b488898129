/**
 * The scene reader as the source writes it: a ParameterIterator over the tokens of one
 * instruction, and a ScriptedScene object whose fields the instruction actions update in place.
 * Every method is proved to do exactly what the scene-script functions describe, so the
 * properties proved there (one looker, at most one light, properties only after a primitive)
 * hold of the object.
 */
module ScriptedScene {
  import opened Wrappers
  import opened Geometry
  import Strings
  import opened Surface
  import opened Primitives
  import opened SceneScript

  /** The minimum distance an intersection must have to be reported. */
  const MinimumDistance: real := 0.0000000001

  /** The iterator's exception, thrown when a token is missing, is the MissingParameter error. */
  class ParameterIterator {
    const parameters: seq<string>
    var position: nat

    /** The tokens are the instruction with the brackets removed, split at blanks. */
    constructor (instruction: string)
      ensures parameters == Tokenize(instruction) && position == 0
    {
      var stripped := Strings.Remove(instruction, ['[', ']', '<', '>']);
      var tokens := Strings.Split(stripped, ' ');
      parameters := tokens;
      position := 0;
    }

    predicate HasNext()
      reads this
    {
      position < |parameters|
    }

    /** The next token, or MissingParameter when there is none. */
    method Next() returns (r: Result<string, SceneError>)
      modifies this
      ensures old(position) < |parameters| ==> r == Success(parameters[old(position)]) && position == old(position) + 1
      ensures old(position) >= |parameters| ==> r == Failure(MissingParameter) && position == old(position)
    {
      if !HasNext() {
        return Failure(MissingParameter);
      }
      r := Success(parameters[position]);
      position := position + 1;
    }

    /** `nextDouble`: the next token read as a number. */
    method NextDouble(env: Environment) returns (r: Result<real, SceneError>)
      modifies this
      ensures r == NumberAt(parameters, old(position), env)
      ensures position == if old(position) < |parameters| then old(position) + 1 else old(position)
    {
      var token :- Next();
      match env.parseDouble(token)
      case None => r := Failure(BadNumber(token));
      case Some(v) => r := Success(v);
    }

    /** `nextPoint`: the next three tokens read as the coordinates of a point. */
    method NextPoint(env: Environment) returns (r: Result<Point, SceneError>)
      modifies this
      ensures r == PointAt(parameters, old(position), env)
      ensures r.Success? ==> position == old(position) + 3
    {
      var x :- NextDouble(env);
      var y :- NextDouble(env);
      var z :- NextDouble(env);
      r := Success(Point(x, y, z));
    }

    /** `nextVector`: the next three tokens read as the components of a vector. */
    method NextVector(env: Environment) returns (r: Result<Vector, SceneError>)
      modifies this
      ensures r == VectorAt(parameters, old(position), env)
      ensures r.Success? ==> position == old(position) + 3
    {
      var x :- NextDouble(env);
      var y :- NextDouble(env);
      var z :- NextDouble(env);
      r := Success(Vector(x, y, z));
    }
  }

  /** The shapes of a list of primitives, in order. */
  function ShapesOf(primitives: seq<Primitive>): (r: seq<Shape>)
    ensures |r| == |primitives|
    ensures forall i | 0 <= i < |r| :: r[i] == primitives[i].shape
  {
    if primitives == [] then [] else ShapesOf(primitives[..|primitives| - 1]) + [primitives[|primitives| - 1].shape]
  }

  /** An action's error, if any, as the specification of that action reports it. */
  ghost predicate Reports(err: Option<SceneError>, spec: Result<State, SceneError>, now: State) {
    match spec
    case Success(st) => err == None && now == st
    case Failure(e) => err == Some(e)
  }

  /** Every intersection of every primitive, primitive after primitive. */
  function AllHits(primitives: seq<Primitive>, hits: Primitive -> seq<Intersection>): seq<Intersection> {
    if primitives == [] then []
    else AllHits(primitives[..|primitives| - 1], hits) + hits(primitives[|primitives| - 1])
  }

  /**
   * `s[k]` is what sorting `s` stably by distance and taking the first intersection farther
   * than the minimum distance yields: the nearest such intersection, and among several equally
   * near the one that comes first.
   */
  ghost predicate FirstNearest(s: seq<Intersection>, k: int) {
    && 0 <= k < |s|
    && s[k].distance > MinimumDistance
    && (forall j | 0 <= j < |s| && s[j].distance > MinimumDistance :: s[k].distance <= s[j].distance)
    && (forall j | 0 <= j < k && s[j].distance > MinimumDistance :: s[k].distance < s[j].distance)
  }

  /** At most one intersection is the first nearest one. */
  lemma FirstNearestUnique(s: seq<Intersection>, a: int, b: int)
    requires FirstNearest(s, a) && FirstNearest(s, b)
    ensures a == b
  {
  }

  class ScriptedScene {
    var primitives: seq<Primitive>
    var looker: Option<Looker>
    var light: Option<Point>
    var propertyAllowed: bool
    /** The surface tables of the primitives, in order. */
    ghost var tables: seq<map<Property, real>>
    ghost var Repr: set<object>

    /** Each primitive owns a surface of its own, and a property may follow only a primitive. */
    ghost predicate Valid()
      reads this, Repr
      ensures Valid() ==> WellFormed(State())
    {
      && this in Repr
      && |tables| == |primitives|
      && (propertyAllowed ==> |primitives| > 0)
      && (forall i | 0 <= i < |primitives| :: primitives[i].surface in Repr && primitives[i].surface.table == tables[i])
      && (forall i, j | 0 <= i < j < |primitives| :: primitives[i].surface != primitives[j].surface)
    }

    /** The reader's state as the scene-script functions see it. */
    ghost function State(): State
      reads this
    {
      SceneScript.State(ShapesOf(primitives), tables, looker, light, propertyAllowed)
    }

    constructor Empty()
      ensures Valid() && fresh(Repr) && State() == Initial
    {
      primitives := [];
      looker := None;
      light := None;
      propertyAllowed := false;
      tables := [];
      new;
      Repr := {this};
    }

    /** `addPrimitive`: a new primitive with an empty surface; properties are allowed after it. */
    method AddPrimitive(shape: Shape)
      requires Valid()
      modifies this
      ensures Valid() && fresh(Repr - old(Repr))
      ensures State() == SceneScript.AddPrimitive(old(State()), shape)
    {
      var p := NewPrimitive(shape);
      primitives := primitives + [p];
      tables := tables + [map[]];
      propertyAllowed := true;
      Repr := Repr + {p.surface};
      assert primitives[..|primitives| - 1] == old(primitives);
    }

    /** `setPropertyForLastPrimitive`: refused unless a property is allowed here; else the surface's `set`. */
    method SetPropertyForLastPrimitive(p: Property, v: real) returns (err: Option<SceneError>)
      requires Valid()
      modifies Repr
      ensures Valid() && Repr == old(Repr)
      ensures Reports(err, SetForLast(old(State()), p, v), State())
      ensures err.Some? ==> State() == old(State())
    {
      if !propertyAllowed {
        return Some(PropertyNotAllowed);
      }
      var last := primitives[|primitives| - 1];
      var e := last.surface.Set(p, v);
      if e.Some? {
        return Some(InvalidSurfaceValue(e.value));
      }
      tables := tables[|tables| - 1 := last.surface.table];
      err := None;
    }

    /** The `looker` action. */
    method LookerAction(parameters: ParameterIterator, env: Environment) returns (err: Option<SceneError>)
      requires Valid() && parameters !in Repr && parameters.position == 1
      modifies this, parameters
      ensures Valid() && Repr == old(Repr)
      ensures Reports(err, SceneScript.LookerAction(old(State()), parameters.parameters, env), State())
    {
      if looker.Some? {
        return Some(SecondLooker);
      }
      var camera := parameters.NextPoint(env);
      if camera.Failure? {
        return Some(camera.error);
      }
      var center := parameters.NextPoint(env);
      if center.Failure? {
        return Some(center.error);
      }
      var width := parameters.NextDouble(env);
      if width.Failure? {
        return Some(width.error);
      }
      var height := parameters.NextDouble(env);
      if height.Failure? {
        return Some(height.error);
      }
      var made := NewLooker(camera.value, center.value, width.value, height.value, env);
      if made.Failure? {
        return Some(made.error);
      }
      looker := Some(made.value);
      propertyAllowed := false;
      err := None;
    }

    /** The `light` action. */
    method LightAction(parameters: ParameterIterator, env: Environment) returns (err: Option<SceneError>)
      requires Valid() && parameters !in Repr && parameters.position == 1
      modifies this, parameters
      ensures Valid() && Repr == old(Repr)
      ensures Reports(err, SceneScript.LightAction(old(State()), parameters.parameters, env), State())
    {
      if light.Some? {
        return Some(SecondLight);
      }
      var point := parameters.NextPoint(env);
      if point.Failure? {
        return Some(point.error);
      }
      light := Some(point.value);
      propertyAllowed := false;
      err := None;
    }

    /** The `sphere` action. */
    method SphereAction(parameters: ParameterIterator, env: Environment) returns (err: Option<SceneError>)
      requires Valid() && parameters !in Repr && parameters.position == 1
      modifies this, parameters
      ensures Valid() && fresh(Repr - old(Repr))
      ensures Reports(err, SceneScript.SphereAction(old(State()), parameters.parameters, env), State())
    {
      var center := parameters.NextPoint(env);
      if center.Failure? {
        return Some(center.error);
      }
      var radius := parameters.NextDouble(env);
      if radius.Failure? {
        return Some(radius.error);
      }
      var shape := FromGeometry(NewSphere(center.value, radius.value));
      if shape.Failure? {
        return Some(shape.error);
      }
      AddPrimitive(shape.value);
      err := None;
    }

    /** The `plane` action. */
    method PlaneAction(parameters: ParameterIterator, env: Environment) returns (err: Option<SceneError>)
      requires Valid() && parameters !in Repr && parameters.position == 1
      modifies this, parameters
      ensures Valid() && fresh(Repr - old(Repr))
      ensures Reports(err, SceneScript.PlaneAction(old(State()), parameters.parameters, env), State())
    {
      var point := parameters.NextPoint(env);
      if point.Failure? {
        return Some(point.error);
      }
      var normal := parameters.NextVector(env);
      if normal.Failure? {
        return Some(normal.error);
      }
      var shape := FromGeometry(NewPlane(point.value, normal.value));
      if shape.Failure? {
        return Some(shape.error);
      }
      AddPrimitive(shape.value);
      err := None;
    }

    /** The `ambient`, `diffuse` and `reflexion` actions. */
    method PropertyAction(p: Property, parameters: ParameterIterator, env: Environment) returns (err: Option<SceneError>)
      requires Valid() && parameters !in Repr && parameters.position == 1
      modifies Repr, parameters
      ensures Valid() && Repr == old(Repr)
      ensures Reports(err, SceneScript.PropertyAction(old(State()), p, parameters.parameters, env), State())
    {
      var v := parameters.NextDouble(env);
      if v.Failure? {
        return Some(v.error);
      }
      err := SetPropertyForLastPrimitive(p, v.value);
    }

    /** The `specular` action: the ratio, then the exponent. */
    method SpecularAction(parameters: ParameterIterator, env: Environment) returns (err: Option<SceneError>)
      requires Valid() && parameters !in Repr && parameters.position == 1
      modifies Repr, parameters
      ensures Valid() && Repr == old(Repr)
      ensures Reports(err, SceneScript.SpecularAction(old(State()), parameters.parameters, env), State())
    {
      var ratio := parameters.NextDouble(env);
      if ratio.Failure? {
        return Some(ratio.error);
      }
      err := SetPropertyForLastPrimitive(SpecularRatio, ratio.value);
      if err.Some? {
        return;
      }
      var exponent := parameters.NextDouble(env);
      if exponent.Failure? {
        return Some(exponent.error);
      }
      err := SetPropertyForLastPrimitive(SpecularExponent, exponent.value);
    }

    /** `parseParameters`: the first token names the action, which is then run on the rest. */
    method ParseParameters(parameters: ParameterIterator, env: Environment) returns (err: Option<SceneError>)
      requires Valid() && parameters !in Repr && parameters.position == 0
      modifies Repr, parameters
      ensures Valid() && fresh(Repr - old(Repr))
      ensures Reports(err, Instruction(old(State()), parameters.parameters, env), State())
    {
      var kind := parameters.Next();
      if kind.Failure? {
        return Some(kind.error);
      }
      var k := kind.value;
      if k == "looker" {
        err := LookerAction(parameters, env);
      } else if k == "light" {
        err := LightAction(parameters, env);
      } else if k == "sphere" {
        err := SphereAction(parameters, env);
      } else if k == "plane" {
        err := PlaneAction(parameters, env);
      } else if k == "ambient" {
        err := PropertyAction(AmbientRatio, parameters, env);
      } else if k == "diffuse" {
        err := PropertyAction(DiffuseRatio, parameters, env);
      } else if k == "specular" {
        err := SpecularAction(parameters, env);
      } else if k == "reflexion" {
        err := PropertyAction(ReflexionRatio, parameters, env);
      } else {
        err := Some(UnknownType(k));
      }
    }

    /** One line of the constructor's stream: trimmed, skipped if blank or a comment, else parsed. */
    method ReadLine(line: string, env: Environment) returns (err: Option<SceneError>)
      requires Valid()
      modifies Repr
      ensures Valid() && fresh(Repr - old(Repr))
      ensures Reports(err, Line(old(State()), line, env), State())
    {
      var instruction := Trim(line);
      if instruction == [] || instruction[0] == '#' {
        return None;
      }
      var parameters := new ParameterIterator(instruction);
      err := ParseParameters(parameters, env);
    }

    /**
     * The constructor: each line is trimmed, blank lines and comments are skipped, every other
     * line is run as an instruction, and a looker must have been defined.
     */
    static method Parse(instructions: seq<string>, env: Environment) returns (r: Result<ScriptedScene, SceneError>)
      ensures r.Success? <==> SceneScript.Parse(instructions, env).Success?
      ensures r.Failure? ==> r.error == SceneScript.Parse(instructions, env).error
      ensures r.Success? ==> r.value.Valid() && fresh(r.value.Repr)
      ensures r.Success? ==> r.value.State() == SceneScript.Parse(instructions, env).value
    {
      var scene := new ScriptedScene.Empty();
      for i := 0 to |instructions|
        invariant scene.Valid() && fresh(scene.Repr)
        invariant Run(Initial, instructions, env) == Run(scene.State(), instructions[i..], env)
      {
        assert instructions[i..][0] == instructions[i] && instructions[i..][1..] == instructions[i + 1..];
        var err := scene.ReadLine(instructions[i], env);
        if err.Some? {
          return Failure(err.value);
        }
      }
      assert instructions[|instructions|..] == [];
      if scene.looker.None? {
        return Failure(MissingLooker);
      }
      r := Success(scene);
    }

    /**
     * `findIntersection`: the intersections of all primitives with a ray (given here by what
     * each primitive's `intersections` answers for it) are collected, and the nearest one
     * farther than the minimum distance is chosen, the first of equally near ones.
     */
    method FindIntersection(hits: Primitive -> seq<Intersection>) returns (r: Option<Intersection>)
      ensures r.None? <==> forall h | h in AllHits(primitives, hits) :: h.distance <= MinimumDistance
      ensures r.Some? ==> exists k | 0 <= k < |AllHits(primitives, hits)| ::
        AllHits(primitives, hits)[k] == r.value && FirstNearest(AllHits(primitives, hits), k)
    {
      var intersections: seq<Intersection> := [];
      for i := 0 to |primitives|
        invariant intersections == AllHits(primitives[..i], hits)
      {
        assert primitives[..i + 1][..i] == primitives[..i];
        intersections := intersections + hits(primitives[i]);
      }
      assert primitives[..|primitives|] == primitives;
      if intersections == [] {
        return None;
      }
      r := None;
      var best := 0;
      for j := 0 to |intersections|
        invariant r.None? <==> forall k | 0 <= k < j :: intersections[k].distance <= MinimumDistance
        invariant r.Some? ==> best < j && intersections[best] == r.value && FirstNearest(intersections[..j], best)
      {
        var h := intersections[j];
        if h.distance > MinimumDistance && (r.None? || h.distance < r.value.distance) {
          r := Some(h);
          best := j;
        }
      }
      assert intersections[..|intersections|] == intersections;
    }
  }
}
