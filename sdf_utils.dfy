/**
 * Builders of SDF (Simulation Description Format) element trees: a box
 * shape, a collide-bitmask surface, visual and collision blocks, a box link
 * and a joint. Each builder makes a fresh element and grows it; nothing the
 * caller holds is mutated, so each is a function returning an immutable
 * tree. A Python exception becomes an `Err`.
 */
module SdfUtils {

  datatype Option<T> = None | Some(value: T)

  /** An XML element: tag, attributes, optional text and ordered children. */
  datatype Element = Element(tag: string, attrib: map<string, string>, text: Option<string>, children: seq<Element>)

  /** The Python values the builders format into text or test for truth. */
  datatype Scalar = Int(i: int) | Float(f: real) | Str(s: string)

  datatype Error =
    | UnpackError(got: nat)       // `[x, y, z] = size` on a size of another length (ValueError)
    | RuntimeError(message: string)

  datatype Result<T> = Ok(value: T) | Err(error: Error) {
    predicate IsFailure() { Err? }

    function PropagateFailure<U>(): Result<U>
      requires Err?
    {
      Err(error)
    }

    function Extract(): T
      requires Ok?
    {
      value
    }
  }

  /**
   * Python's text form of a value (`str`, as used by f-strings and
   * `'{}'.format`). Float formatting is not part of this model, so the
   * builders take it as an argument.
   */
  type Show = Scalar -> string

  // ---------------------------------------------------------------------
  // Python truth values
  // ---------------------------------------------------------------------

  /** `if v:` on a number or a string: nonzero, nonempty. */
  predicate Truthy(v: Scalar)
  {
    match v
    case Int(i) => i != 0
    case Float(f) => f != 0.0
    case Str(s) => s != ""
  }

  /** `if e:` on an ElementTree element: true iff it has children. */
  predicate HasChildren(e: Element)
  {
    |e.children| > 0
  }

  /** `if material:` on an optional element. */
  predicate MaterialShown(material: Option<Element>)
  {
    material.Some? && HasChildren(material.value)
  }

  /** `if bitmask:` on an optional value. */
  predicate BitmaskShown(bitmask: Option<Scalar>)
  {
    bitmask.Some? && Truthy(bitmask.value)
  }

  // ---------------------------------------------------------------------
  // Reading a tree back
  // ---------------------------------------------------------------------

  function Leaf(tag: string, text: string): Element
  {
    Element(tag, map[], Some(text), [])
  }

  /** The tags of a list of elements, in order. */
  function Tags(es: seq<Element>): (r: seq<string>)
    ensures |r| == |es|
    ensures forall k :: 0 <= k < |es| ==> r[k] == es[k].tag
  {
    if es == [] then [] else [es[0].tag] + Tags(es[1..])
  }

  /** The first child of `e` tagged `tag`, if any. */
  function Find(e: Element, tag: string): (r: Option<Element>)
  {
    FirstTagged(e.children, tag)
  }

  function FirstTagged(es: seq<Element>, tag: string): (r: Option<Element>)
    ensures r.Some? ==> r.value in es && r.value.tag == tag
    ensures r.None? <==> forall k :: 0 <= k < |es| ==> es[k].tag != tag
  {
    if es == [] then None
    else if es[0].tag == tag then Some(es[0])
    else FirstTagged(es[1..], tag)
  }

  /** The element reached from `e` by following the first child with each tag of `path`. */
  function FindPath(e: Element, path: seq<string>): Option<Element>
  {
    if path == [] then Some(e)
    else match Find(e, path[0])
      case None => None
      case Some(c) => FindPath(c, path[1..])
  }

  /** The first child with a tag is found, whatever follows it. */
  lemma {:induction false} FindFirst(e: Element, tag: string, k: nat)
    requires k < |e.children| && e.children[k].tag == tag
    requires forall m :: 0 <= m < k ==> e.children[m].tag != tag
    ensures Find(e, tag) == Some(e.children[k])
  {
    FirstTaggedAt(e.children, tag, k);
  }

  lemma {:induction false} FirstTaggedAt(es: seq<Element>, tag: string, k: nat)
    requires k < |es| && es[k].tag == tag
    requires forall m :: 0 <= m < k ==> es[m].tag != tag
    ensures FirstTagged(es, tag) == Some(es[k])
  {
    if k > 0 {
      FirstTaggedAt(es[1..], tag, k - 1);
    }
  }

  /** Following a path one step: from `e` to its first child tagged `tag`. */
  lemma FindPathStep(e: Element, tag: string, rest: seq<string>, c: Element)
    requires Find(e, tag) == Some(c)
    ensures FindPath(e, [tag] + rest) == FindPath(c, rest)
    ensures rest == [] ==> FindPath(e, [tag]) == Some(c)
  {
    assert ([tag] + rest)[1..] == rest;
  }

  /** The text of the element at `path`, when there is one and it has text. */
  function TextAt(e: Element, path: seq<string>): Option<string>
  {
    match FindPath(e, path)
    case None => None
    case Some(c) => c.text
  }

  // ---------------------------------------------------------------------
  // Builders
  // ---------------------------------------------------------------------

  /** The `size` text of a box: the three components separated by single spaces. */
  function SizeText(x: Scalar, y: Scalar, z: Scalar, show: Show): string
  {
    show(x) + " " + show(y) + " " + show(z)
  }

  /**
   * A `box` whose only child is a childless `size` carrying the three
   * components; a size that does not have exactly three components is an
   * unpacking error.
   */
  function GenerateBox(size: seq<Scalar>, show: Show): (r: Result<Element>)
    ensures r.Ok? <==> |size| == 3
    ensures r.Err? ==> r.error == UnpackError(|size|)
    ensures r.Ok? ==> r.value.tag == "box" && r.value.attrib == map[] && r.value.text == None
    ensures r.Ok? ==> Tags(r.value.children) == ["size"] && r.value.children[0].children == []
    ensures r.Ok? ==> r.value.children[0].attrib == map[]
    ensures r.Ok? ==> TextAt(r.value, ["size"]) == Some(SizeText(size[0], size[1], size[2], show))
  {
    if |size| != 3 then Err(UnpackError(|size|))
    else
      var sizeElement := Leaf("size", SizeText(size[0], size[1], size[2], show));
      var box := Element("box", map[], None, [sizeElement]);
      FindFirst(box, "size", 0);
      FindPathStep(box, "size", [], sizeElement);
      Ok(box)
  }

  /** `surface` > `contact` > `collide_bitmask`, the bitmask's text on the innermost. */
  function GenerateCollideBitmask(bitmask: Scalar, show: Show): (r: Element)
    ensures r.tag == "surface" && Tags(r.children) == ["contact"]
    ensures Tags(r.children[0].children) == ["collide_bitmask"]
    ensures r.children[0].children[0].children == []
    ensures r.text == None && r.children[0].text == None
    ensures r.attrib == map[] && r.children[0].attrib == map[] && r.children[0].children[0].attrib == map[]
    ensures TextAt(r, ["contact", "collide_bitmask"]) == Some(show(bitmask))
  {
    var innermost := Leaf("collide_bitmask", show(bitmask));
    var contact := Element("contact", map[], None, [innermost]);
    var surface := Element("surface", map[], None, [contact]);
    FindFirst(surface, "contact", 0);
    FindFirst(contact, "collide_bitmask", 0);
    FindPathStep(contact, "collide_bitmask", [], innermost);
    FindPathStep(surface, "contact", ["collide_bitmask"], contact);
    surface
  }

  /** `geometry` holding the given shape. */
  function Geometry(shape: Element): Element
  {
    Element("geometry", map[], None, [shape])
  }

  /** The optional element as a list of zero or one. */
  function Optional(e: Option<Element>): seq<Element>
  {
    if e.Some? then [e.value] else []
  }

  /**
   * A `visual` named `name`: the pose if one is given, then the box
   * geometry, then the material if it has children.
   */
  function GenerateVisual(name: string, pose: Option<Element>, size: seq<Scalar>,
                          material: Option<Element>, show: Show): (r: Result<Element>)
    ensures r.Ok? <==> |size| == 3
    ensures r.Err? ==> r.error == UnpackError(|size|)
    ensures r.Ok? ==> r.value.tag == "visual" && r.value.attrib == map["name" := name] && r.value.text == None
    ensures r.Ok? ==>
      r.value.children == Optional(pose) + [Geometry(GenerateBox(size, show).value)]
                          + (if MaterialShown(material) then [material.value] else [])
  {
    var box :- GenerateBox(size, show);
    Ok(Element("visual", map["name" := name], None,
       Optional(pose) + [Geometry(box)] + (if material.Some? && HasChildren(material.value) then [material.value] else [])))
  }

  /**
   * A `collision` named `name`: the pose if one is given, then the box
   * geometry, then the bitmask surface if the bitmask is truthy.
   */
  function GenerateCollision(name: string, pose: Option<Element>, size: seq<Scalar>,
                             bitmask: Option<Scalar>, show: Show): (r: Result<Element>)
    ensures r.Ok? <==> |size| == 3
    ensures r.Err? ==> r.error == UnpackError(|size|)
    ensures r.Ok? ==> r.value.tag == "collision" && r.value.attrib == map["name" := name] && r.value.text == None
    ensures r.Ok? ==>
      r.value.children == Optional(pose) + [Geometry(GenerateBox(size, show).value)]
                          + (if BitmaskShown(bitmask) then [GenerateCollideBitmask(bitmask.value, show)] else [])
  {
    var box :- GenerateBox(size, show);
    var surface := if bitmask.Some? && Truthy(bitmask.value) then [GenerateCollideBitmask(bitmask.value, show)] else [];
    Ok(Element("collision", map["name" := name], None, Optional(pose) + [Geometry(box)] + surface))
  }

  /**
   * A `link` named `name` holding the pose, then a visual named
   * `name + "_visual"` if asked for, then a collision named
   * `name + "_collision"` if asked for. The visual gets neither pose nor
   * material; the collision gets the bitmask. The size is only unpacked
   * when one of the two is asked for.
   */
  function GenerateBoxLink(name: string, size: seq<Scalar>, pose: Element, visual: bool, collision: bool,
                           material: Option<Element>, bitmask: Option<Scalar>, show: Show): (r: Result<Element>)
    ensures r.Err? <==> (visual || collision) && |size| != 3
    ensures r.Err? ==> r.error == UnpackError(|size|)
    ensures r.Ok? ==> r.value.tag == "link" && r.value.attrib == map["name" := name] && r.value.text == None
    ensures r.Ok? ==>
      r.value.children == [pose]
                          + (if visual then [GenerateVisual(name + "_visual", None, size, None, show).value] else [])
                          + (if collision then [GenerateCollision(name + "_collision", None, size, bitmask, show).value] else [])
  {
    var withVisual :-
      if visual then
        var v :- GenerateVisual(name + "_visual", None, size, None, show);
        Ok([pose, v])
      else Ok([pose]);
    var children :-
      if collision then
        var c :- GenerateCollision(name + "_collision", None, size, bitmask, show);
        Ok(withVisual + [c])
      else Ok(withVisual);
    Ok(Element("link", map["name" := name], None, children))
  }

  /** The joint types the builder accepts. */
  const SupportedJointTypes: seq<string> := ["fixed", "prismatic", "revolute"]

  /** The unit vector of an axis name, for the three names there are. */
  function AxisVector(axis: string): Option<string>
  {
    if axis == "x" then Some("1 0 0")
    else if axis == "y" then Some("0 1 0")
    else if axis == "z" then Some("0 0 1")
    else None
  }

  /** The axis name of a unit vector; the inverse of `AxisVector`. */
  function AxisName(xyz: string): Option<string>
  {
    if xyz == "1 0 0" then Some("x")
    else if xyz == "0 1 0" then Some("y")
    else if xyz == "0 0 1" then Some("z")
    else None
  }

  const AxisErrorMessage: string := "Axis requested is undefined, only \"x\", \"y\" and \"z\" available"

  function JointTypeErrorMessage(jointType: string): string
  {
    "joint type " + jointType + " not supported."
  }

  /** `limit` holding `lower`, `upper` and, when given, `effort`. */
  function Limit(lower: Scalar, upper: Scalar, maxEffort: Option<Scalar>, show: Show): Element
  {
    Element("limit", map[], None,
      [Leaf("lower", show(lower)), Leaf("upper", show(upper))]
      + (if maxEffort.Some? then [Leaf("effort", show(maxEffort.value))] else []))
  }

  /** `axis` holding the unit vector and, when both limits are given, a `limit`. */
  function AxisElement(xyz: string, lowerLimit: Option<Scalar>, upperLimit: Option<Scalar>,
                       maxEffort: Option<Scalar>, show: Show): Element
  {
    var limit :=
      if lowerLimit.Some? && upperLimit.Some? then [Limit(lowerLimit.value, upperLimit.value, maxEffort, show)]
      else [];
    Element("axis", map[], None, [Leaf("xyz", xyz)] + limit)
  }

  /**
   * A `joint` named `jointName` of type `jointType` between two links.
   * A fixed joint holds only `parent` and `child`; any other supported joint
   * adds `axis` (its unit vector, and a `limit` when both limits are given)
   * and then the pose if one is given. An unsupported type, or an unknown
   * axis on a joint that is not fixed, is a runtime error.
   */
  function GenerateJoint(jointName: string, jointType: string, parentLink: string, childLink: string,
                         jointAxis: string, lowerLimit: Option<Scalar>, upperLimit: Option<Scalar>,
                         maxEffort: Option<Scalar>, pose: Option<Element>, show: Show): (r: Result<Element>)
    ensures jointType !in SupportedJointTypes ==> r == Err(RuntimeError(JointTypeErrorMessage(jointType)))
    ensures jointType in SupportedJointTypes && jointType != "fixed" && jointAxis !in {"x", "y", "z"} ==>
      r == Err(RuntimeError(AxisErrorMessage))
    ensures r.Ok? <==> jointType == "fixed" || (jointType in SupportedJointTypes && jointAxis in {"x", "y", "z"})
    ensures r.Ok? ==> r.value.tag == "joint" && r.value.text == None
    ensures r.Ok? ==> r.value.attrib == map["name" := jointName, "type" := jointType]
    ensures r.Ok? ==> |r.value.children| >= 2 && r.value.children[..2] == [Leaf("parent", parentLink), Leaf("child", childLink)]
    ensures r.Ok? && jointType == "fixed" ==> |r.value.children| == 2
    ensures r.Ok? && jointType != "fixed" ==>
      Tags(r.value.children) == ["parent", "child", "axis"] + Tags(Optional(pose))
      && r.value.children[2] == AxisElement(AxisVector(jointAxis).value, lowerLimit, upperLimit, maxEffort, show)
      && r.value.children[3..] == Optional(pose)
  {
    if jointType !in SupportedJointTypes then
      Err(RuntimeError(JointTypeErrorMessage(jointType)))
    else
      var links := [Leaf("parent", parentLink), Leaf("child", childLink)];
      if jointType == "fixed" then
        Ok(Element("joint", map["name" := jointName, "type" := jointType], None, links))
      else
        match AxisVector(jointAxis)
        case None => Err(RuntimeError(AxisErrorMessage))
        case Some(xyz) =>
          var axis := AxisElement(xyz, lowerLimit, upperLimit, maxEffort, show);
          Ok(Element("joint", map["name" := jointName, "type" := jointType], None, links + [axis] + Optional(pose)))
  }

  // ---------------------------------------------------------------------
  // Properties
  // ---------------------------------------------------------------------

  /** Reading a box's size back gives the three components, space separated. */
  lemma BoxSizeReadBack(x: Scalar, y: Scalar, z: Scalar, show: Show)
    ensures GenerateBox([x, y, z], show).Ok?
    ensures TextAt(GenerateBox([x, y, z], show).value, ["size"]) == Some(SizeText(x, y, z, show))
  {
  }

  /** A visual never carries a falsy material, whatever else it holds. */
  lemma ChildlessMaterialDropped(name: string, pose: Option<Element>, size: seq<Scalar>, m: Element, show: Show)
    requires m.children == []
    ensures GenerateVisual(name, pose, size, Some(m), show) == GenerateVisual(name, pose, size, None, show)
  {
  }

  /** A collision with a zero or empty bitmask is the collision without one. */
  lemma FalsyBitmaskDropped(name: string, pose: Option<Element>, size: seq<Scalar>, b: Scalar, show: Show)
    requires !Truthy(b)
    ensures GenerateCollision(name, pose, size, Some(b), show) == GenerateCollision(name, pose, size, None, show)
  {
  }

  /**
   * The collision's bitmask surface is found where SDF looks for it, unless
   * the pose itself is tagged `surface`.
   */
  lemma CollisionBitmaskReadBack(name: string, pose: Option<Element>, size: seq<Scalar>, b: Scalar, show: Show)
    requires |size| == 3 && Truthy(b)
    requires pose.None? || pose.value.tag != "surface"
    ensures TextAt(GenerateCollision(name, pose, size, Some(b), show).value,
                   ["surface", "contact", "collide_bitmask"]) == Some(show(b))
  {
    var r := GenerateCollision(name, pose, size, Some(b), show).value;
    var surface := GenerateCollideBitmask(b, show);
    var k := |Optional(pose)| + 1;
    assert r.children == Optional(pose) + [Geometry(GenerateBox(size, show).value), surface];
    FindFirst(r, "surface", k);
    FindPathStep(r, "surface", ["contact", "collide_bitmask"], surface);
  }

  /** A pose tagged `surface` comes first, so the reader finds it instead of the bitmask. */
  lemma SurfacePoseHidesBitmask(name: string, size: seq<Scalar>, b: Scalar, show: Show)
    requires |size| == 3 && Truthy(b)
    ensures var pose := Element("surface", map[], None, []);
      FindPath(GenerateCollision(name, Some(pose), size, Some(b), show).value, ["surface", "contact"]) == None
  {
    var pose := Element("surface", map[], None, []);
    var r := GenerateCollision(name, Some(pose), size, Some(b), show).value;
    assert r.children[0] == pose;
    FindFirst(r, "surface", 0);
    FindPathStep(r, "surface", ["contact"], pose);
    assert Find(pose, "contact") == None;
  }

  /** The material of a box link is not used: links built with any two materials are equal. */
  lemma BoxLinkIgnoresMaterial(name: string, size: seq<Scalar>, pose: Element, visual: bool, collision: bool,
                               m1: Option<Element>, m2: Option<Element>, bitmask: Option<Scalar>, show: Show)
    ensures GenerateBoxLink(name, size, pose, visual, collision, m1, bitmask, show)
         == GenerateBoxLink(name, size, pose, visual, collision, m2, bitmask, show)
  {
  }

  /** The names of a box link's visual and collision, read back from the link. */
  lemma BoxLinkChildNames(name: string, size: seq<Scalar>, pose: Element, material: Option<Element>,
                          bitmask: Option<Scalar>, show: Show)
    requires |size| == 3 && pose.tag != "visual" && pose.tag != "collision"
    ensures var link := GenerateBoxLink(name, size, pose, true, true, material, bitmask, show).value;
      Find(link, "visual").Some? && Find(link, "visual").value.attrib["name"] == name + "_visual"
      && Find(link, "collision").Some? && Find(link, "collision").value.attrib["name"] == name + "_collision"
  {
    var link := GenerateBoxLink(name, size, pose, true, true, material, bitmask, show).value;
    assert link.children[1].tag == "visual";
    assert link.children[2].tag == "collision";
  }

  /** An unsupported joint type is rejected whatever the other arguments are. */
  lemma UnsupportedJointRejected(jointName: string, jointType: string, parentLink: string, childLink: string,
                                 jointAxis: string, lowerLimit: Option<Scalar>, upperLimit: Option<Scalar>,
                                 maxEffort: Option<Scalar>, pose: Option<Element>, show: Show)
    requires jointType != "fixed" && jointType != "prismatic" && jointType != "revolute"
    ensures GenerateJoint(jointName, jointType, parentLink, childLink, jointAxis,
                          lowerLimit, upperLimit, maxEffort, pose, show).Err?
  {
  }

  /**
   * A fixed joint depends only on its name and links: axis (valid or not),
   * limits, effort and pose are ignored.
   */
  lemma FixedJointIgnoresRest(jointName: string, parentLink: string, childLink: string,
                              axis1: string, lower1: Option<Scalar>, upper1: Option<Scalar>,
                              effort1: Option<Scalar>, pose1: Option<Element>,
                              axis2: string, lower2: Option<Scalar>, upper2: Option<Scalar>,
                              effort2: Option<Scalar>, pose2: Option<Element>, show: Show)
    ensures GenerateJoint(jointName, "fixed", parentLink, childLink, axis1, lower1, upper1, effort1, pose1, show)
         == GenerateJoint(jointName, "fixed", parentLink, childLink, axis2, lower2, upper2, effort2, pose2, show)
    ensures GenerateJoint(jointName, "fixed", parentLink, childLink, axis1, lower1, upper1, effort1, pose1, show).value.children
         == [Leaf("parent", parentLink), Leaf("child", childLink)]
  {
  }

  /** The axis read back from a moving joint names the axis it was built with. */
  lemma JointAxisRoundTrip(jointName: string, jointType: string, parentLink: string, childLink: string,
                           jointAxis: string, lowerLimit: Option<Scalar>, upperLimit: Option<Scalar>,
                           maxEffort: Option<Scalar>, pose: Option<Element>, show: Show)
    requires jointType == "prismatic" || jointType == "revolute"
    requires jointAxis in {"x", "y", "z"}
    ensures var r := GenerateJoint(jointName, jointType, parentLink, childLink, jointAxis,
                                   lowerLimit, upperLimit, maxEffort, pose, show);
      r.Ok? && TextAt(r.value, ["axis", "xyz"]).Some?
      && AxisName(TextAt(r.value, ["axis", "xyz"]).value) == Some(jointAxis)
  {
    var r := GenerateJoint(jointName, jointType, parentLink, childLink, jointAxis,
                           lowerLimit, upperLimit, maxEffort, pose, show);
    var vector := AxisVector(jointAxis).value;
    var axis := JointAxis(r.value);
    assert axis == AxisElement(vector, lowerLimit, upperLimit, maxEffort, show);
    var xyz := Leaf("xyz", vector);
    assert axis.children[0] == xyz;
    FindFirst(axis, "xyz", 0);
    FindPathStep(axis, "xyz", [], xyz);
    FindPathStep(r.value, "axis", ["xyz"], axis);
    AxisVectorRoundTrip(jointAxis);
  }

  /** The `axis` of a moving joint, found where a reader looks for it. */
  function JointAxis(j: Element): (axis: Element)
    requires |j.children| >= 3 && j.children[2].tag == "axis"
    requires j.children[0].tag == "parent" && j.children[1].tag == "child"
    ensures Find(j, "axis") == Some(axis)
  {
    FindFirst(j, "axis", 2);
    j.children[2]
  }

  /** The bounds and effort read back from a `limit`. */
  lemma LimitReadBack(lower: Scalar, upper: Scalar, maxEffort: Option<Scalar>, show: Show)
    ensures var l := Limit(lower, upper, maxEffort, show);
      TextAt(l, ["lower"]) == Some(show(lower)) && TextAt(l, ["upper"]) == Some(show(upper))
      && (FindPath(l, ["effort"]).Some? <==> maxEffort.Some?)
  {
    var l := Limit(lower, upper, maxEffort, show);
    assert l.children[..2] == [Leaf("lower", show(lower)), Leaf("upper", show(upper))];
    assert [] + ["lower"] == ["lower"] && [] + ["upper"] == ["upper"];
    FindFirst(l, "lower", 0);
    FindFirst(l, "upper", 1);
    FindPathStep(l, "lower", [], l.children[0]);
    FindPathStep(l, "upper", [], l.children[1]);
    if maxEffort.Some? {
      FindFirst(l, "effort", 2);
      FindPathStep(l, "effort", [], l.children[2]);
    } else {
      assert Find(l, "effort") == None;
    }
  }

  /**
   * An axis has a `limit` iff both limits are given; then the limits read
   * back, and an `effort` is there iff one is given.
   */
  lemma AxisLimitReadBack(xyz: string, lowerLimit: Option<Scalar>, upperLimit: Option<Scalar>,
                          maxEffort: Option<Scalar>, show: Show)
    ensures var a := AxisElement(xyz, lowerLimit, upperLimit, maxEffort, show);
      (FindPath(a, ["limit"]).Some? <==> lowerLimit.Some? && upperLimit.Some?)
      && (lowerLimit.Some? && upperLimit.Some? ==>
            TextAt(a, ["limit", "lower"]) == Some(show(lowerLimit.value))
            && TextAt(a, ["limit", "upper"]) == Some(show(upperLimit.value)))
      && (FindPath(a, ["limit", "effort"]).Some? <==>
            lowerLimit.Some? && upperLimit.Some? && maxEffort.Some?)
  {
    var axis := AxisElement(xyz, lowerLimit, upperLimit, maxEffort, show);
    if lowerLimit.Some? && upperLimit.Some? {
      var limit := Limit(lowerLimit.value, upperLimit.value, maxEffort, show);
      assert axis.children == [Leaf("xyz", xyz), limit];
      FindFirst(axis, "limit", 1);
      LimitReadBack(lowerLimit.value, upperLimit.value, maxEffort, show);
      FindPathStep(axis, "limit", [], limit);
      FindPathStep(axis, "limit", ["lower"], limit);
      FindPathStep(axis, "limit", ["upper"], limit);
      FindPathStep(axis, "limit", ["effort"], limit);
    } else {
      assert axis.children == [Leaf("xyz", xyz)];
      assert Find(axis, "limit") == None;
    }
  }

  /**
   * A moving joint has a `limit` under its axis iff both limits are given;
   * then the limits read back, and an `effort` is there iff one is given.
   */
  lemma JointLimitReadBack(jointName: string, jointType: string, parentLink: string, childLink: string,
                           jointAxis: string, lowerLimit: Option<Scalar>, upperLimit: Option<Scalar>,
                           maxEffort: Option<Scalar>, pose: Option<Element>, show: Show)
    requires jointType == "prismatic" || jointType == "revolute"
    requires jointAxis in {"x", "y", "z"}
    ensures var j := GenerateJoint(jointName, jointType, parentLink, childLink, jointAxis,
                                   lowerLimit, upperLimit, maxEffort, pose, show).value;
      (FindPath(j, ["axis", "limit"]).Some? <==> lowerLimit.Some? && upperLimit.Some?)
      && (lowerLimit.Some? && upperLimit.Some? ==>
            TextAt(j, ["axis", "limit", "lower"]) == Some(show(lowerLimit.value))
            && TextAt(j, ["axis", "limit", "upper"]) == Some(show(upperLimit.value)))
      && (FindPath(j, ["axis", "limit", "effort"]).Some? <==>
            lowerLimit.Some? && upperLimit.Some? && maxEffort.Some?)
  {
    var j := GenerateJoint(jointName, jointType, parentLink, childLink, jointAxis,
                           lowerLimit, upperLimit, maxEffort, pose, show).value;
    var axis := JointAxis(j);
    AxisLimitReadBack(AxisVector(jointAxis).value, lowerLimit, upperLimit, maxEffort, show);
    FindPathStep(j, "axis", ["limit"], axis);
    FindPathStep(j, "axis", ["limit", "lower"], axis);
    FindPathStep(j, "axis", ["limit", "upper"], axis);
    FindPathStep(j, "axis", ["limit", "effort"], axis);
  }

  /** An effort given without both limits is dropped: the joint is the one built without it. */
  lemma EffortWithoutLimitsDropped(jointName: string, jointType: string, parentLink: string, childLink: string,
                                   jointAxis: string, lowerLimit: Option<Scalar>, upperLimit: Option<Scalar>,
                                   maxEffort: Option<Scalar>, pose: Option<Element>, show: Show)
    requires lowerLimit.None? || upperLimit.None?
    ensures GenerateJoint(jointName, jointType, parentLink, childLink, jointAxis, lowerLimit, upperLimit, maxEffort, pose, show)
         == GenerateJoint(jointName, jointType, parentLink, childLink, jointAxis, lowerLimit, upperLimit, None, pose, show)
  {
  }

  /** `AxisName` undoes `AxisVector`, and the two agree on which names are axes. */
  lemma AxisVectorRoundTrip(axis: string)
    ensures AxisVector(axis).Some? <==> axis in {"x", "y", "z"}
    ensures AxisVector(axis).Some? ==> AxisName(AxisVector(axis).value) == Some(axis)
  {
  }
}
