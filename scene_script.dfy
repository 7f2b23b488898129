/**
 * The scene-script language read by ScriptedScene, as pure functions over the reader's state.
 * A script is a list of lines. Each line is trimmed; blank lines and lines starting with '#'
 * are skipped; any other line is cut into tokens (brackets '[' ']' '<' '>' removed, split at
 * spaces) whose first token names the instruction. The imperative reader in module
 * ScriptedScene is proved to compute exactly what these functions describe.
 */
module SceneScript {
  import opened Wrappers
  import opened Geometry
  import Strings
  import opened Surface
  import opened Primitives

  /** The looker's constructor arguments; the camera vectors it derives are not modelled. */
  datatype Looker = Looker(camera: Point, viewportCenter: Point, width: real, height: real)

  /**
   * What the reader calls but this model does not define: Double.parseDouble (None where it
   * throws NumberFormatException), and the Looker's test that needs a square root, "the
   * normalised view vector from camera to viewport centre equals the y axis within the
   * tolerance", which catches views pointing up.
   */
  datatype Environment = Environment(parseDouble: string -> Option<real>, pointsUp: (Point, Point) -> bool)

  datatype SceneError =
    | MissingParameter                      // NoSuchElementException from the parameter iterator
    | BadNumber(token: string)              // NumberFormatException
    | UnknownType(name: string)
    | SecondLooker
    | SecondLight
    | PropertyNotAllowed
    | InvalidSurfaceValue(cause: SurfaceError)
    | InvalidLooker
    | ZeroLengthVector                      // IllegalStateException from Vector.scale
    | InvalidPrimitive(reason: GeometryError)
    | MissingLooker

  /**
   * The Looker constructor as written. Its y-axis test only catches a view pointing up; a view
   * pointing straight down gets past it, and the cross product with the y axis that follows is
   * the null vector, whose `scale` throws.
   */
  function NewLookerAsWritten(camera: Point, center: Point, width: real, height: real, env: Environment): Result<Looker, SceneError> {
    if PointEquals(camera, center) then Failure(InvalidLooker)
    else if width <= 0.0 then Failure(InvalidLooker)
    else if height <= 0.0 then Failure(InvalidLooker)
    else if env.pointsUp(camera, center) then Failure(InvalidLooker)
    else if HasZeroLength(Cross(VectorTo(camera, center), YAxis)) then Failure(ZeroLengthVector)
    else Success(Looker(camera, center, width, height))
  }

  /** What the Looker needs: distinct points, a positive viewport, and a view not along the y axis. */
  predicate Admissible(l: Looker, env: Environment) {
    && !PointEquals(l.camera, l.viewportCenter)
    && l.width > 0.0
    && l.height > 0.0
    && !env.pointsUp(l.camera, l.viewportCenter)
    && !HasZeroLength(Cross(VectorTo(l.camera, l.viewportCenter), YAxis))
  }

  /**
   * The Looker constructor as intended by its comment, "the viewVector cannot be parallel to the
   * y-Axis": a view along the y axis is rejected with the constructor's own error, in either
   * direction. The rest of the model uses this one.
   */
  function NewLooker(camera: Point, center: Point, width: real, height: real, env: Environment): (r: Result<Looker, SceneError>)
    ensures r.Success? <==> Admissible(Looker(camera, center, width, height), env)
    ensures r.Success? ==> r.value == Looker(camera, center, width, height)
    ensures r.Failure? ==> r.error == InvalidLooker
  {
    if PointEquals(camera, center) then Failure(InvalidLooker)
    else if width <= 0.0 then Failure(InvalidLooker)
    else if height <= 0.0 then Failure(InvalidLooker)
    else if env.pointsUp(camera, center) || HasZeroLength(Cross(VectorTo(camera, center), YAxis)) then Failure(InvalidLooker)
    else Success(Looker(camera, center, width, height))
  }

  /**
   * The constructor as written and as intended accept the same arguments and build the same
   * looker; they differ only in the error of a view straight down.
   */
  lemma LookerAsWrittenAgrees(camera: Point, center: Point, width: real, height: real, env: Environment)
    ensures NewLookerAsWritten(camera, center, width, height, env).Success? <==> NewLooker(camera, center, width, height, env).Success?
    ensures NewLooker(camera, center, width, height, env).Success? ==>
      NewLookerAsWritten(camera, center, width, height, env) == NewLooker(camera, center, width, height, env)
    ensures NewLookerAsWritten(camera, center, width, height, env).Failure? && NewLookerAsWritten(camera, center, width, height, env).error != ZeroLengthVector ==>
      NewLookerAsWritten(camera, center, width, height, env) == NewLooker(camera, center, width, height, env)
  {
  }

  /**
   * Every view straight down (or straight up, where the injected test misses it) makes the
   * constructor as written fail in Vector.scale, where the intended one reports the looker.
   */
  lemma LookerAsWrittenMissesVerticalView(camera: Point, center: Point, width: real, height: real, env: Environment)
    requires !PointEquals(camera, center) && width > 0.0 && height > 0.0
    requires !env.pointsUp(camera, center)
    requires camera.x == center.x && camera.z == center.z
    ensures NewLookerAsWritten(camera, center, width, height, env) == Failure(ZeroLengthVector)
    ensures NewLooker(camera, center, width, height, env) == Failure(InvalidLooker)
  {
    CrossYAxisNull(VectorTo(camera, center));
  }

  /** A camera at (0, 1, 0) looking at the origin looks straight down. */
  lemma LookerAsWrittenMissesDownwardView(env: Environment)
    requires !env.pointsUp(Point(0.0, 1.0, 0.0), Point(0.0, 0.0, 0.0))
    ensures NewLookerAsWritten(Point(0.0, 1.0, 0.0), Point(0.0, 0.0, 0.0), 1.0, 1.0, env) == Failure(ZeroLengthVector)
    ensures NewLooker(Point(0.0, 1.0, 0.0), Point(0.0, 0.0, 0.0), 1.0, 1.0, env) == Failure(InvalidLooker)
  {
    var camera, center := Point(0.0, 1.0, 0.0), Point(0.0, 0.0, 0.0);
    assert !PointEquals(camera, center) by {
      assert Doubles.Abs(camera.y - center.y) == 1.0;
    }
    LookerAsWrittenMissesVerticalView(camera, center, 1.0, 1.0, env);
  }

  /**
   * No looker looks along the y axis, up or down, so its right vector, the cross product of the
   * view with the y axis, is never the null vector.
   */
  lemma AdmissibleLookerNotAlongYAxis(l: Looker, env: Environment, k: real)
    requires Admissible(l, env)
    ensures VectorTo(l.camera, l.viewportCenter) != Vector(0.0, k, 0.0)
    ensures !HasZeroLength(Cross(VectorTo(l.camera, l.viewportCenter), YAxis))
  {
    CrossYAxisNull(VectorTo(l.camera, l.viewportCenter));
  }

  /** The reader's state: the primitives (shape and surface table each), the looker, the light, and propertyAllowed. */
  datatype State = State(
    shapes: seq<Shape>,
    tables: seq<map<Property, real>>,
    looker: Option<Looker>,
    light: Option<Point>,
    propertyAllowed: bool)

  const Initial: State := State([], [], None, None, false)

  /** One surface table per primitive, and a property is only ever allowed once a primitive exists. */
  predicate WellFormed(st: State) {
    |st.shapes| == |st.tables| && (st.propertyAllowed ==> |st.tables| > 0)
  }

  /** `nextDouble` at position `pos` of the tokens. */
  function NumberAt(tokens: seq<string>, pos: nat, env: Environment): (r: Result<real, SceneError>)
    ensures pos >= |tokens| <==> r == Failure(MissingParameter)
    ensures r.Success? ==> pos < |tokens| && env.parseDouble(tokens[pos]) == Some(r.value)
  {
    if pos >= |tokens| then Failure(MissingParameter)
    else match env.parseDouble(tokens[pos])
      case None => Failure(BadNumber(tokens[pos]))
      case Some(v) => Success(v)
  }

  /** `nextPoint`: three numbers from position `pos`. */
  function PointAt(tokens: seq<string>, pos: nat, env: Environment): Result<Point, SceneError> {
    var x :- NumberAt(tokens, pos, env);
    var y :- NumberAt(tokens, pos + 1, env);
    var z :- NumberAt(tokens, pos + 2, env);
    Success(Point(x, y, z))
  }

  /** `nextVector`: three numbers from position `pos`. */
  function VectorAt(tokens: seq<string>, pos: nat, env: Environment): Result<Vector, SceneError> {
    var x :- NumberAt(tokens, pos, env);
    var y :- NumberAt(tokens, pos + 1, env);
    var z :- NumberAt(tokens, pos + 2, env);
    Success(Vector(x, y, z))
  }

  function FromGeometry(r: Result<Shape, GeometryError>): Result<Shape, SceneError> {
    match r
    case Success(s) => Success(s)
    case Failure(e) => Failure(InvalidPrimitive(e))
  }

  /** `addPrimitive`: append the primitive with an empty surface and allow properties. */
  function AddPrimitive(st: State, shape: Shape): State {
    st.(shapes := st.shapes + [shape], tables := st.tables + [map[]], propertyAllowed := true)
  }

  /** `setPropertyForLastPrimitive`: only where a property is allowed, and only on the last primitive's surface. */
  function SetForLast(st: State, p: Property, v: real): (r: Result<State, SceneError>)
    requires WellFormed(st)
    ensures r.Success? ==> WellFormed(r.value)
  {
    if !st.propertyAllowed then Failure(PropertyNotAllowed)
    else
      var last := |st.tables| - 1;
      match Assign(st.tables[last], p, v)
      case Failure(e) => Failure(InvalidSurfaceValue(e))
      case Success(t) => Success(st.(tables := st.tables[last := t]))
  }

  predicate IsProperty(kind: string) {
    kind == "ambient" || kind == "diffuse" || kind == "specular" || kind == "reflexion"
  }

  predicate IsKnown(kind: string) {
    kind == "looker" || kind == "light" || kind == "sphere" || kind == "plane" || IsProperty(kind)
  }

  /** The `looker` action: only one looker; eight numbers; the Looker constructor's checks; no property after it. */
  function LookerAction(st: State, tokens: seq<string>, env: Environment): (r: Result<State, SceneError>)
    requires WellFormed(st)
    ensures r.Success? ==> WellFormed(r.value)
    ensures r.Success? ==> st.looker.None? && r.value.looker.Some? && Admissible(r.value.looker.value, env)
    ensures r.Success? ==> r.value == st.(looker := r.value.looker, propertyAllowed := false)
  {
    if st.looker.Some? then Failure(SecondLooker)
    else
      var camera :- PointAt(tokens, 1, env);
      var center :- PointAt(tokens, 4, env);
      var width :- NumberAt(tokens, 7, env);
      var height :- NumberAt(tokens, 8, env);
      var looker :- NewLooker(camera, center, width, height, env);
      Success(st.(looker := Some(looker), propertyAllowed := false))
  }

  /** The `light` action: only one light; a point; no property after it. */
  function LightAction(st: State, tokens: seq<string>, env: Environment): (r: Result<State, SceneError>)
    requires WellFormed(st)
    ensures r.Success? ==> WellFormed(r.value)
  {
    if st.light.Some? then Failure(SecondLight)
    else
      var light :- PointAt(tokens, 1, env);
      Success(st.(light := Some(light), propertyAllowed := false))
  }

  /** The `sphere` action: a centre and a radius, checked by the Sphere constructor. */
  function SphereAction(st: State, tokens: seq<string>, env: Environment): (r: Result<State, SceneError>)
    requires WellFormed(st)
    ensures r.Success? ==> WellFormed(r.value)
  {
    var center :- PointAt(tokens, 1, env);
    var radius :- NumberAt(tokens, 4, env);
    var shape :- FromGeometry(NewSphere(center, radius));
    Success(AddPrimitive(st, shape))
  }

  /** The `plane` action: a point and a normal, checked by the Plane constructor. */
  function PlaneAction(st: State, tokens: seq<string>, env: Environment): (r: Result<State, SceneError>)
    requires WellFormed(st)
    ensures r.Success? ==> WellFormed(r.value)
  {
    var point :- PointAt(tokens, 1, env);
    var normal :- VectorAt(tokens, 4, env);
    var shape :- FromGeometry(NewPlane(point, normal));
    Success(AddPrimitive(st, shape))
  }

  /** The `ambient`, `diffuse` and `reflexion` actions: one number, then the property is set. */
  function PropertyAction(st: State, p: Property, tokens: seq<string>, env: Environment): (r: Result<State, SceneError>)
    requires WellFormed(st)
    ensures r.Success? ==> WellFormed(r.value)
  {
    var v :- NumberAt(tokens, 1, env);
    SetForLast(st, p, v)
  }

  /** The `specular` action: the ratio is read and set, then the exponent is read and set. */
  function SpecularAction(st: State, tokens: seq<string>, env: Environment): (r: Result<State, SceneError>)
    requires WellFormed(st)
    ensures r.Success? ==> WellFormed(r.value)
  {
    var ratio :- NumberAt(tokens, 1, env);
    var st' :- SetForLast(st, SpecularRatio, ratio);
    var exponent :- NumberAt(tokens, 2, env);
    SetForLast(st', SpecularExponent, exponent)
  }

  /** `parseParameters`: the first token selects the action; an unknown one is an error. */
  function Instruction(st: State, tokens: seq<string>, env: Environment): (r: Result<State, SceneError>)
    requires WellFormed(st)
    ensures r.Success? ==> WellFormed(r.value)
  {
    if tokens == [] then Failure(MissingParameter)
    else
      var kind := tokens[0];
      if kind == "looker" then LookerAction(st, tokens, env)
      else if kind == "light" then LightAction(st, tokens, env)
      else if kind == "sphere" then SphereAction(st, tokens, env)
      else if kind == "plane" then PlaneAction(st, tokens, env)
      else if kind == "ambient" then PropertyAction(st, AmbientRatio, tokens, env)
      else if kind == "diffuse" then PropertyAction(st, DiffuseRatio, tokens, env)
      else if kind == "specular" then SpecularAction(st, tokens, env)
      else if kind == "reflexion" then PropertyAction(st, ReflexionRatio, tokens, env)
      else Failure(UnknownType(kind))
  }

  /** String.trim, first half: drop leading characters up to and including ' '. */
  function TrimStart(s: string): (r: string)
    ensures |r| <= |s| && r == s[|s| - |r|..]
    ensures r == [] || r[0] > ' '
    ensures forall i | 0 <= i < |s| - |r| :: s[i] <= ' '
  {
    if s != [] && s[0] <= ' ' then
      var r := TrimStart(s[1..]);
      assert s[1..][|s| - 1 - |r|..] == s[|s| - |r|..];
      r
    else s
  }

  /** String.trim, second half: drop trailing characters up to and including ' '. */
  function TrimEnd(s: string): (r: string)
    ensures |r| <= |s| && r == s[..|r|]
    ensures r == [] || r[|r| - 1] > ' '
    ensures forall i | |r| <= i < |s| :: s[i] <= ' '
  {
    if s != [] && s[|s| - 1] <= ' ' then
      var r := TrimEnd(s[..|s| - 1]);
      assert s[..|s| - 1][..|r|] == s[..|r|];
      r
    else s
  }

  function Trim(s: string): string {
    TrimEnd(TrimStart(s))
  }

  /** The line filter of the constructor: after trimming, empty lines and comment lines are dropped. */
  predicate Skipped(line: string) {
    var t := Trim(line);
    t == [] || t[0] == '#'
  }

  /** The ParameterIterator's tokens: brackets removed, then split at spaces. */
  function Tokenize(instruction: string): seq<string> {
    Strings.Fields(Strings.Removed(instruction, ['[', ']', '<', '>']), ' ')
  }

  /** One line of a script: skipped, or trimmed, tokenised and run as an instruction. */
  function Line(st: State, line: string, env: Environment): (r: Result<State, SceneError>)
    requires WellFormed(st)
    ensures r.Success? ==> WellFormed(r.value)
  {
    if Skipped(line) then Success(st) else Instruction(st, Tokenize(Trim(line)), env)
  }

  /** The lines of a script, read in order from `st`; the first failing instruction ends the read. */
  function Run(st: State, lines: seq<string>, env: Environment): (r: Result<State, SceneError>)
    requires WellFormed(st)
    ensures r.Success? ==> WellFormed(r.value)
    decreases |lines|
  {
    if lines == [] then Success(st)
    else
      var next :- Line(st, lines[0], env);
      Run(next, lines[1..], env)
  }

  /** The ScriptedScene constructor: read every line, then insist on a looker. */
  function Parse(lines: seq<string>, env: Environment): (r: Result<State, SceneError>)
    ensures r.Success? ==> WellFormed(r.value) && r.value.looker.Some?
  {
    var st :- Run(Initial, lines, env);
    if st.looker.None? then Failure(MissingLooker) else Success(st)
  }

  /** Leading blanks (any character up to ' ') do not change what trimming starts with. */
  lemma {:induction false} TrimStartBlanks(blanks: string, s: string)
    requires forall i | 0 <= i < |blanks| :: blanks[i] <= ' '
    ensures TrimStart(blanks + s) == TrimStart(s)
    decreases |blanks|
  {
    if blanks != [] {
      assert (blanks + s)[1..] == blanks[1..] + s;
      TrimStartBlanks(blanks[1..], s);
    } else {
      assert blanks + s == s;
    }
  }

  /** A line of blanks is skipped. */
  lemma BlankLinesSkipped(blanks: string)
    requires forall i | 0 <= i < |blanks| :: blanks[i] <= ' '
    ensures Skipped(blanks)
  {
    TrimStartBlanks(blanks, []);
    assert blanks + [] == blanks;
  }

  /** A line whose first non-blank character is '#' is skipped. */
  lemma CommentLinesSkipped(blanks: string, rest: string)
    requires forall i | 0 <= i < |blanks| :: blanks[i] <= ' '
    ensures Skipped(blanks + ['#'] + rest)
  {
    var comment := ['#'] + rest;
    assert blanks + ['#'] + rest == blanks + comment;
    TrimStartBlanks(blanks, comment);
    assert TrimStart(comment) == comment;
    var t := TrimEnd(comment);
    assert comment[0] == '#';
    assert t[0] == '#';
  }

  /** A skipped line leaves the reader's state alone. */
  lemma SkippedLineIgnored(st: State, line: string, rest: seq<string>, env: Environment)
    requires WellFormed(st) && Skipped(line)
    ensures Run(st, [line] + rest, env) == Run(st, rest, env)
  {
    assert ([line] + rest)[1..] == rest;
  }

  /** Every token is non-empty and free of spaces and brackets; together they are the instruction without them. */
  lemma TokenizeSpec(instruction: string)
    ensures forall i | 0 <= i < |Tokenize(instruction)| ::
      Tokenize(instruction)[i] != [] && forall c | c in Tokenize(instruction)[i] :: c in instruction && c !in [' ', '[', ']', '<', '>']
    ensures Strings.Concat(Tokenize(instruction)) == Strings.Removed(Strings.Removed(instruction, ['[', ']', '<', '>']), [' '])
  {
    var stripped := Strings.Removed(instruction, ['[', ']', '<', '>']);
    var tokens := Tokenize(instruction);
    Strings.FieldsWellFormed(stripped, ' ');
    Strings.FieldsConcat(stripped, ' ');
    Strings.ConcatMembers(tokens);
    Strings.RemovedMembers(stripped, [' ']);
    Strings.RemovedMembers(instruction, ['[', ']', '<', '>']);
  }

  /** The single property an ambient, diffuse or reflexion instruction sets. */
  function PropertyOf(kind: string): Property
    requires IsProperty(kind) && kind != "specular"
  {
    if kind == "ambient" then AmbientRatio else if kind == "diffuse" then DiffuseRatio else ReflexionRatio
  }

  /**
   * What one accepted instruction does. Its first token is one of the eight known names. A looker
   * or light may be set only once and clears propertyAllowed; a sphere or plane appends a
   * primitive with an empty surface and sets propertyAllowed; a property instruction needs
   * propertyAllowed and changes nothing but the surface table of the last primitive, where it
   * writes its value(s): specular writes the ratio and then the exponent.
   */
  lemma InstructionEffect(st: State, tokens: seq<string>, env: Environment)
    requires WellFormed(st)
    requires Instruction(st, tokens, env).Success?
    ensures tokens != [] && IsKnown(tokens[0])
    ensures var r := Instruction(st, tokens, env).value;
      && (tokens[0] != "looker" ==> r.looker == st.looker)
      && (tokens[0] != "light" ==> r.light == st.light)
      && (tokens[0] == "looker" ==> st.looker.None? && r.looker.Some? && r == st.(looker := r.looker, propertyAllowed := false))
      && (tokens[0] == "light" ==> st.light.None? && r.light.Some? && r == st.(light := r.light, propertyAllowed := false))
      && (tokens[0] == "sphere" || tokens[0] == "plane" ==> |r.shapes| == |st.shapes| + 1 && r == AddPrimitive(st, r.shapes[|st.shapes|]))
      && (tokens[0] == "sphere" ==> r.shapes[|st.shapes|].Sphere?)
      && (tokens[0] == "plane" ==> r.shapes[|st.shapes|].Plane?)
      && (IsProperty(tokens[0]) ==>
            var last := |st.tables| - 1;
            && st.propertyAllowed
            && r == st.(tables := r.tables)
            && |r.tables| == |st.tables|
            && r.tables[..last] == st.tables[..last]
            && (tokens[0] != "specular" ==>
                  r.tables[last] == st.tables[last][PropertyOf(tokens[0]) := NumberAt(tokens, 1, env).value])
            && (tokens[0] == "specular" ==>
                  r.tables[last] == st.tables[last][SpecularRatio := NumberAt(tokens, 1, env).value]
                                                   [SpecularExponent := NumberAt(tokens, 2, env).value]))
  {
  }

  /** An unknown first token is rejected, and so is a line that has no token at all. */
  lemma UnknownTypeRejected(st: State, tokens: seq<string>, env: Environment)
    requires WellFormed(st)
    ensures tokens == [] ==> Instruction(st, tokens, env) == Failure(MissingParameter)
    ensures tokens != [] && !IsKnown(tokens[0]) ==> Instruction(st, tokens, env) == Failure(UnknownType(tokens[0]))
  {
  }

  /**
   * Where no property is allowed (before the first primitive, and right after a looker or a
   * light) a property instruction fails; its first number is read, and can fail, before that check.
   */
  lemma PropertyNotAllowedRejected(st: State, tokens: seq<string>, env: Environment)
    requires WellFormed(st) && !st.propertyAllowed
    requires tokens != [] && IsProperty(tokens[0])
    ensures Instruction(st, tokens, env) ==
      if NumberAt(tokens, 1, env).Failure? then Failure(NumberAt(tokens, 1, env).error) else Failure(PropertyNotAllowed)
  {
  }

  /** The reader starts with no property allowed, and a looker or light instruction forbids one again. */
  lemma PropertyAfterLookerOrLightRejected(st: State, tokens: seq<string>, property: seq<string>, env: Environment)
    requires WellFormed(st) && Instruction(st, tokens, env).Success?
    requires tokens[0] == "looker" || tokens[0] == "light"
    requires property != [] && IsProperty(property[0])
    ensures !Initial.propertyAllowed
    ensures Instruction(Instruction(st, tokens, env).value, property, env).Failure?
  {
    InstructionEffect(st, tokens, env);
    PropertyNotAllowedRejected(Instruction(st, tokens, env).value, property, env);
  }

  /** A line that is read and whose first token is `kind`. */
  predicate IsLine(line: string, kind: string) {
    !Skipped(line) && var tokens := Tokenize(Trim(line)); tokens != [] && tokens[0] == kind
  }

  /** How many lines of the script are `kind` instructions. */
  function Count(lines: seq<string>, kind: string): nat {
    if lines == [] then 0 else (if IsLine(lines[0], kind) then 1 else 0) + Count(lines[1..], kind)
  }

  /**
   * Over a successful read, a looker instruction appears at most once, and none at all once the
   * state already has a looker; the same holds for the light.
   */
  lemma {:induction false} RunCounts(st: State, lines: seq<string>, env: Environment)
    requires WellFormed(st) && Run(st, lines, env).Success?
    ensures st.looker.Some? ==> Count(lines, "looker") == 0
    ensures Count(lines, "looker") <= 1
    ensures Run(st, lines, env).value.looker.Some? <==> st.looker.Some? || Count(lines, "looker") == 1
    ensures st.light.Some? ==> Count(lines, "light") == 0
    ensures Count(lines, "light") <= 1
    ensures Run(st, lines, env).value.light.Some? <==> st.light.Some? || Count(lines, "light") == 1
    decreases |lines|
  {
    if lines != [] {
      if Skipped(lines[0]) {
        RunCounts(st, lines[1..], env);
      } else {
        var tokens := Tokenize(Trim(lines[0]));
        InstructionEffect(st, tokens, env);
        var next := Instruction(st, tokens, env).value;
        RunCounts(next, lines[1..], env);
      }
    }
  }

  /**
   * A script is accepted only if it holds exactly one looker instruction and at most one light
   * instruction: no looker, or a second looker or light, means rejection.
   */
  lemma ParseNeedsExactlyOneLooker(lines: seq<string>, env: Environment)
    ensures Parse(lines, env).Success? ==> Count(lines, "looker") == 1 && Count(lines, "light") <= 1
    ensures Count(lines, "looker") != 1 || Count(lines, "light") > 1 ==> Parse(lines, env).Failure?
  {
    if Run(Initial, lines, env).Success? {
      RunCounts(Initial, lines, env);
    }
  }
}
