# AwaitSignals behavior node and SDF element builders, in Dafny

This project models two independent pieces of the traffic editor and its
building-map tools and proves properties of them.

**The AwaitSignals behavior node** (`await_signals.dfy`, module
`AwaitSignals`). A behavior node that waits for a rendezvous of signals. A
prototype is built from a template and holds a list of signal names. Each
instance is a copy of a prototype bound to one model: its names are run through
the parameter interpolator, and it holds one "received" flag per name, all
unset. Every frame the driver ticks the instance with the list of inbound
signals; a tick sets the flag of every name on that list. The node is complete
when it waits for nothing or every flag is set. The class
`AwaitSignalsNode` keeps the source's three fields (`signalNames`,
`signalsReceived`, `modelName`) as sequences that its methods reassign; its
methods are proved against the specification functions `Interpolated`,
`AllFalse`, `Ticked` and `Complete`, and the lemmas relate runs of ticks
(`TickedAll`) to completion: monotonicity, arrival-order independence and
the vacuous-completion rule.

**The SDF element builders** (`sdf_utils.dfy`, module `SdfUtils`). Functions
that build fixed SDF (Simulation Description Format) XML trees: a box, a
collide-bitmask surface, visual and collision blocks, a box link and a joint.
An `Element` is a tag, attributes, optional text and ordered children; a
Python exception becomes `Err`. The partner of each builder is a reader:
`Find`, `FindPath` and `TextAt` follow the first child with each tag, the way
a consumer of the SDF looks values up, and the lemmas read sizes, bitmasks,
axes and limits back out of the built trees.

Two behaviours of the code are kept as written. `instantiate` copies the
node it is called on and clears only the copy's names, so an instance made
from a node that already holds flags keeps those flags and appends new ones;
instantiation is meant to reset all runtime state, but the model follows the
code (`ReinstantiatedNeverCompletes` shows the consequence). And `is_complete` looks at the flags, not the names, so a
prototype that was never instantiated (names, no flags) is complete.

## Model

| member | source | states |
|---|---|---|
| AwaitSignals.AwaitSignalsNode.constructor | traffic_editor/gui/behavior_node_await_signals.cpp:25-30 | a prototype holds exactly the template's signal names in template order, no flags and no model name |
| AwaitSignals.AwaitSignalsNode.Copy | traffic_editor/gui/behavior_node_await_signals.cpp:47-48 | the copy made at instantiation has the same names, flags and model name as the original |
| AwaitSignals.AwaitSignalsNode.Instantiate | traffic_editor/gui/behavior_node_await_signals.cpp:43-57 | returns a fresh node bound to the given model whose names are the interpolated names index by index and whose flags are the original's flags followed by one unset flag per name; the original is unchanged |
| AwaitSignals.AwaitSignalsNode.Tick | traffic_editor/gui/behavior_node_await_signals.cpp:59-85 | needs at least as many flags as names; afterwards each flag is its old value or whether its name is on the inbound list, names and model name are unchanged, the outbound list is untouched and the elapsed time plays no part |
| AwaitSignals.AwaitSignalsNode.IsComplete | traffic_editor/gui/behavior_node_await_signals.cpp:87-94 | true iff the node has no names or every flag it holds is set |
| AwaitSignals.InterpolatedLength | traffic_editor/gui/behavior_node_await_signals.cpp:50-55 | an instance has as many names as its prototype, the i-th being the interpolation of the prototype's i-th |
| AwaitSignals.PrototypeInstanceAligned | traffic_editor/gui/behavior_node_await_signals.cpp:50-55 | instantiating a prototype gives as many flags as names, all unset |
| AwaitSignals.FreshInstanceComplete | traffic_editor/gui/behavior_node_await_signals.cpp:87-94 | a fresh instance of a prototype is complete iff the prototype has no names |
| AwaitSignals.PrototypeIsComplete | traffic_editor/gui/behavior_node_await_signals.cpp:89-94 | a prototype with names but no flags reports complete |
| AwaitSignals.TickMonotone | traffic_editor/gui/behavior_node_await_signals.cpp:67-84 | a tick keeps the number of flags and never clears a set flag |
| AwaitSignals.TickSetsDuplicatesTogether | traffic_editor/gui/behavior_node_await_signals.cpp:67-77 | one inbound occurrence of a name sets the flag at every index holding that name in the same tick |
| AwaitSignals.TickCompose | traffic_editor/gui/behavior_node_await_signals.cpp:67-84 | two ticks in a row leave the same flags as one tick on both inbound lists together |
| AwaitSignals.TicksCommute | traffic_editor/gui/behavior_node_await_signals.cpp:67-84 | swapping two ticks changes nothing, and repeating a tick changes nothing |
| AwaitSignals.TickedAllIsOneTick | traffic_editor/gui/behavior_node_await_signals.cpp:67-84 | any run of ticks leaves the same flags as one tick on all of its inbound signals |
| AwaitSignals.TickedAllAt | traffic_editor/gui/behavior_node_await_signals.cpp:67-84 | after a run of ticks a name's flag is set iff it was set before or some tick delivered the name; flags beyond the names keep their value |
| AwaitSignals.StaysComplete | traffic_editor/gui/behavior_node_await_signals.cpp:87-94 | once complete, a node stays complete under any further run of ticks |
| AwaitSignals.CompleteIffDelivered | traffic_editor/gui/behavior_node_await_signals.cpp:67-94 | with aligned vectors and at least one name, a run of ticks completes the node iff every unset name is delivered by some tick |
| AwaitSignals.FreshInstanceCompletesIffAllArrived | traffic_editor/gui/behavior_node_await_signals.cpp:67-94 | a fresh instance that waits for something completes after a run of ticks iff every name arrived on some tick, in whatever order |
| AwaitSignals.ArrivalOrderIrrelevant | traffic_editor/gui/behavior_node_await_signals.cpp:67-84 | two runs of ticks whose inbound lists are permutations of each other leave the same flags |
| AwaitSignals.ReinstantiatedNeverCompletes | traffic_editor/gui/behavior_node_await_signals.cpp:47-55 | instantiating a node that already holds flags yields a node that waits for something and that no run of ticks can complete |
| SdfUtils.GenerateBox | building_map_tools/building_map/sdf_utils.py:4-11 | succeeds iff the size has three components; then a `box` whose only child is a childless `size` that reads back as the components joined by single spaces; otherwise an unpacking error |
| SdfUtils.GenerateCollideBitmask | building_map_tools/building_map/sdf_utils.py:13-19 | exactly the chain `surface` > `contact` > `collide_bitmask`, with no attributes, text only on the innermost element, and the bitmask readable there |
| SdfUtils.GenerateVisual | building_map_tools/building_map/sdf_utils.py:21-34 | a `visual` with the given name whose children are the pose if given, the box geometry, then the material if it has children; an unpacking error iff the size is not three components |
| SdfUtils.GenerateCollision | building_map_tools/building_map/sdf_utils.py:36-49 | a `collision` with the given name whose children are the pose if given, the box geometry, then the bitmask surface if the bitmask is truthy; an unpacking error iff the size is not three components |
| SdfUtils.GenerateBoxLink | building_map_tools/building_map/sdf_utils.py:51-61 | a `link` with the given name holding the pose, then `name_visual` without pose or material iff asked, then `name_collision` with the bitmask iff asked; an error iff one of them is asked for and the size is not three components |
| SdfUtils.GenerateJoint | building_map_tools/building_map/sdf_utils.py:63-107 | an unsupported type is an error; otherwise a `joint` with name and type whose first children are `parent` and `child`; a fixed joint has nothing else; a moving joint with an unknown axis is an error, otherwise `axis` and then the pose if given |
| SdfUtils.BoxSizeReadBack | building_map_tools/building_map/sdf_utils.py:6-9 | the size read back from a box of three components is their texts joined by single spaces |
| SdfUtils.ChildlessMaterialDropped | building_map_tools/building_map/sdf_utils.py:31-32 | a material element without children is left out: the visual equals the one built without material |
| SdfUtils.FalsyBitmaskDropped | building_map_tools/building_map/sdf_utils.py:46-47 | a zero or empty bitmask is left out: the collision equals the one built without bitmask |
| SdfUtils.CollisionBitmaskReadBack | building_map_tools/building_map/sdf_utils.py:46-47 | a truthy bitmask reads back from the collision at `surface/contact/collide_bitmask`, for any pose not itself tagged `surface` |
| SdfUtils.SurfacePoseHidesBitmask | building_map_tools/building_map/sdf_utils.py:40-47 | a pose tagged `surface` is appended before the bitmask surface, so a reader following `surface/contact` finds the pose and no contact |
| SdfUtils.BoxLinkIgnoresMaterial | building_map_tools/building_map/sdf_utils.py:51-59 | the material argument of a box link has no effect on the result |
| SdfUtils.BoxLinkChildNames | building_map_tools/building_map/sdf_utils.py:56-59 | the visual and collision found in a box link are named `name_visual` and `name_collision` |
| SdfUtils.UnsupportedJointRejected | building_map_tools/building_map/sdf_utils.py:68-70 | a joint type other than fixed, prismatic and revolute is an error whatever the other arguments are |
| SdfUtils.FixedJointIgnoresRest | building_map_tools/building_map/sdf_utils.py:73-80 | a fixed joint is exactly parent and child; axis (valid or not), limits, effort and pose make no difference |
| SdfUtils.JointAxisRoundTrip | building_map_tools/building_map/sdf_utils.py:82-91 | the unit vector read back from a moving joint's axis names the axis it was built with |
| SdfUtils.AxisLimitReadBack | building_map_tools/building_map/sdf_utils.py:93-102 | an axis holds a `limit` iff both limits are given, the limits then read back, and `effort` is present iff it is also given |
| SdfUtils.JointLimitReadBack | building_map_tools/building_map/sdf_utils.py:93-102 | read from a moving joint, `axis/limit` exists iff both limits are given, lower and upper read back, and `axis/limit/effort` exists iff the effort is given too |
| SdfUtils.EffortWithoutLimitsDropped | building_map_tools/building_map/sdf_utils.py:93-102 | an effort given without both limits is dropped: the joint equals the one built without effort |
| SdfUtils.AxisVectorRoundTrip | building_map_tools/building_map/sdf_utils.py:84-91 | exactly x, y and z have a unit vector, and reading that vector back gives the axis name |

## Left out

- Console output: `print()` and the diagnostics `tick` prints when a flag is set. They do not affect state.
- Template parsing: the template's signal-name field enters as a sequence of strings, and the parameters as a map from strings to strings. The YAML mechanics are not modelled.
- The parameter interpolator: its definition is not part of this model. It is an argument of `Instantiate`, so every result holds for any interpolator. Its error behaviour is not modelled: the interpolator is total.
- The unused `tick` arguments (model state, building, active models). `dtSeconds` is kept as an argument that no result depends on.
- The Wait behavior node: `traffic_editor/include/traffic_editor/behavior_node_wait.h` declares it, and its `tick` and `is_complete` bodies are outside this model.
- Python number formatting (`str` of an int or float, f-strings, `'{}'.format`): it enters as the `Show` argument of the builders.
- XML serialisation and attribute order. Attributes are a map.
- The unused `yaml` import.
- Default argument values (`joint_axis='z'`, `visual=True`, `material=None` and the rest): every argument is explicit.
- Python's dynamic typing: joint type, axis and link names are strings. Poses and materials are elements, so appending a non-element cannot occur. The box link's pose is a required element, because appending `None` would raise. `visual` and `collision` are booleans.
- Element truthiness follows ElementTree, where an element is truthy iff it has children. Bitmask truthiness covers ints, floats and strings.
