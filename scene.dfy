/**
 * The entity collections of a BABYLON::Scene and the lookups and updates the
 * scene offers on them: meshes, cameras, lights, materials and geometries,
 * the active camera, and the list of running animatables.
 */
module Engine {
  import opened Wrappers

  /**
   * Anything the scene keeps in a collection: a node, a material or a
   * geometry. Only what the lookups read is modelled: the user-given id and
   * name and the scene-generated unique id.
   */
  class Entity {
    const id: string
    const name: string
    const uniqueId: nat

    constructor (id: string, name: string, uniqueId: nat)
      ensures this.id == id && this.name == name && this.uniqueId == uniqueId
    {
      this.id := id;
      this.name := name;
      this.uniqueId := uniqueId;
    }
  }

  /** What a lookup compares: the id, the name or the unique id. */
  datatype Key = ById(id: string) | ByName(name: string) | ByUniqueId(uniqueId: nat)

  predicate Matches(e: Entity, k: Key)
  {
    match k
    case ById(id) => e.id == id
    case ByName(name) => e.name == name
    case ByUniqueId(u) => e.uniqueId == u
  }

  /** Some entity of s matches k. */
  predicate Has(s: seq<Entity>, k: Key)
  {
    exists i :: 0 <= i < |s| && Matches(s[i], k)
  }

  /** s[i] is the earliest-added entity of s that matches k. */
  ghost predicate IsFirst(s: seq<Entity>, i: int, k: Key)
  {
    0 <= i < |s| && Matches(s[i], k) && forall j :: 0 <= j < i ==> !Matches(s[j], k)
  }

  /** s[i] is the most recently added entity of s that matches k. */
  ghost predicate IsLast(s: seq<Entity>, i: int, k: Key)
  {
    0 <= i < |s| && Matches(s[i], k) && forall j :: i < j < |s| ==> !Matches(s[j], k)
  }

  // ---------------------------------------------------------------------------
  // Linear scans
  // ---------------------------------------------------------------------------

  /** A scan from the front: the index of the first match, if any. */
  function FirstIndex(s: seq<Entity>, k: Key): (r: Option<nat>)
    ensures r.None? <==> !Has(s, k)
    ensures r.Some? ==> IsFirst(s, r.value, k)
    decreases |s|
  {
    if s == [] then None
    else if Matches(s[0], k) then Some(0)
    else
      match FirstIndex(s[1..], k)
      case None =>
        assert forall i :: 1 <= i < |s| ==> s[i] == s[1..][i - 1];
        None
      case Some(i) =>
        assert forall j :: 1 <= j <= i ==> s[j] == s[1..][j - 1];
        Some(i + 1)
  }

  /** A scan from the back: the index of the last match, if any. */
  function LastIndex(s: seq<Entity>, k: Key): (r: Option<nat>)
    ensures r.None? <==> !Has(s, k)
    ensures r.Some? ==> IsLast(s, r.value, k)
    decreases |s|
  {
    if s == [] then None
    else if Matches(s[|s| - 1], k) then Some(|s| - 1)
    else
      var r := LastIndex(s[..|s| - 1], k);
      assert forall i :: 0 <= i < |s| - 1 ==> s[i] == s[..|s| - 1][i];
      r
  }

  /** The first entity of s matching k, or null. */
  function Find(s: seq<Entity>, k: Key): (r: Entity?)
    ensures r == null <==> !Has(s, k)
    ensures r != null ==> exists i :: IsFirst(s, i, k) && s[i] == r
  {
    match FirstIndex(s, k)
    case None => null
    case Some(i) => s[i]
  }

  /** The last entity of s matching k, or null. */
  function FindLast(s: seq<Entity>, k: Key): (r: Entity?)
    ensures r == null <==> !Has(s, k)
    ensures r != null ==> exists i :: IsLast(s, i, k) && s[i] == r
  {
    match LastIndex(s, k)
    case None => null
    case Some(i) => s[i]
  }

  /** Every entity of s matching k. */
  function FindAll(s: seq<Entity>, k: Key): (r: seq<Entity>)
    ensures forall i :: 0 <= i < |r| ==> r[i] in s && Matches(r[i], k)
    ensures forall i :: 0 <= i < |s| && Matches(s[i], k) ==> s[i] in r
    ensures r == [] <==> !Has(s, k)
    ensures |r| <= |s|
    decreases |s|
  {
    if s == [] then []
    else
      var rest := FindAll(s[1..], k);
      assert forall i :: 1 <= i < |s| ==> s[i] == s[1..][i - 1];
      if Matches(s[0], k) then [s[0]] + rest else rest
  }

  /** s without x, the other entities keeping their order. */
  function Without(s: seq<Entity>, x: Entity): (r: seq<Entity>)
    ensures forall i :: 0 <= i < |r| ==> r[i] in s && r[i] != x
    ensures forall i :: 0 <= i < |s| && s[i] != x ==> s[i] in r
    ensures x !in r
    ensures x !in s ==> r == s
    ensures |r| <= |s|
    decreases |s|
  {
    if s == [] then []
    else
      var rest := Without(s[1..], x);
      assert s == [s[0]] + s[1..];
      if s[0] == x then rest else [s[0]] + rest
  }

  // ---------------------------------------------------------------------------
  // Properties of the scans
  // ---------------------------------------------------------------------------

  /** Two indices that are both the first match are the same index. */
  lemma FirstIsUnique(s: seq<Entity>, i: int, j: int, k: Key)
    requires IsFirst(s, i, k) && IsFirst(s, j, k)
    ensures i == j
  {
  }

  /** When exactly one entity matches, the first and the last match are that entity. */
  lemma SingleMatchFirstIsLast(s: seq<Entity>, k: Key, i: int)
    requires 0 <= i < |s| && Matches(s[i], k)
    requires forall j :: 0 <= j < |s| && j != i ==> !Matches(s[j], k)
    ensures Find(s, k) == s[i] && FindLast(s, k) == s[i]
  {
    var f := FirstIndex(s, k);
    var l := LastIndex(s, k);
    assert f.Some? && l.Some?;
    assert f.value == i;
    assert l.value == i;
  }

  /** With unique ids kept distinct, the unique-id lookup finds exactly the entity that carries the id. */
  lemma FindByUniqueId(s: seq<Entity>, i: int)
    requires 0 <= i < |s|
    requires forall a, b :: 0 <= a < b < |s| ==> s[a].uniqueId != s[b].uniqueId
    ensures Find(s, ByUniqueId(s[i].uniqueId)) == s[i]
  {
    var k := ByUniqueId(s[i].uniqueId);
    var f := FirstIndex(s, k);
    assert Matches(s[i], k);
    assert f.Some?;
  }

  /** Adding an entity does not change which entity the first-match lookup finds, when one was found before. */
  lemma FindAfterAppend(s: seq<Entity>, e: Entity, k: Key)
    ensures Has(s, k) ==> Find(s + [e], k) == Find(s, k)
    ensures !Has(s, k) ==> Find(s + [e], k) == (if Matches(e, k) then e else null)
  {
    var t := s + [e];
    assert forall i :: 0 <= i < |s| ==> t[i] == s[i];
    match FirstIndex(s, k)
    case Some(i) =>
      assert IsFirst(t, i, k);
      FirstIsUnique(t, i, FirstIndex(t, k).value, k);
    case None =>
      if Matches(e, k) {
        assert IsFirst(t, |s|, k);
        FirstIsUnique(t, |s|, FirstIndex(t, k).value, k);
      } else {
        assert !Has(t, k);
      }
  }

  /** The first-match lookup on a non-empty sequence looks at its head, then at the rest. */
  lemma FindCons(s: seq<Entity>, k: Key)
    requires s != []
    ensures Find(s, k) == if Matches(s[0], k) then s[0] else Find(s[1..], k)
  {
    if !Matches(s[0], k) {
      match FirstIndex(s[1..], k)
      case None =>
      case Some(i) => assert s[i + 1] == s[1..][i];
    }
  }

  /**
   * Removing an entity other than the one the first-match lookup finds does
   * not change what it finds, so the lookup keeps returning the earliest
   * surviving match.
   */
  lemma {:induction false} FindAfterWithout(s: seq<Entity>, x: Entity, k: Key)
    requires Find(s, k) != x
    ensures Find(Without(s, x), k) == Find(s, k)
    decreases |s|
  {
    if s != [] {
      FindCons(s, k);
      var rest := Without(s[1..], x);
      if s[0] == x {
        FindAfterWithout(s[1..], x, k);
      } else if Matches(s[0], k) {
        FindCons([s[0]] + rest, k);
      } else {
        FindAfterWithout(s[1..], x, k);
        FindCons([s[0]] + rest, k);
        assert ([s[0]] + rest)[1..] == rest;
      }
    }
  }

  /** An added entity that matches is what the last-match lookup finds afterwards. */
  lemma FindLastAfterAppend(s: seq<Entity>, e: Entity, k: Key)
    requires Matches(e, k)
    ensures FindLast(s + [e], k) == e
  {
    var t := s + [e];
    var l := LastIndex(t, k);
    assert Matches(t[|s|], k);
    assert l.Some?;
  }

  /** The last-match lookup on s + [e] looks at e, then at s. */
  lemma FindLastSnoc(s: seq<Entity>, e: Entity, k: Key)
    ensures FindLast(s + [e], k) == if Matches(e, k) then e else FindLast(s, k)
  {
    var t := s + [e];
    assert t[|t| - 1] == e;
    assert t[..|t| - 1] == s;
    if !Matches(e, k) {
      match LastIndex(s, k)
      case None =>
      case Some(i) => assert t[i] == s[i];
    }
  }

  /** Removal distributes over concatenation, so it keeps the order of what remains. */
  lemma {:induction false} WithoutConcat(a: seq<Entity>, b: seq<Entity>, x: Entity)
    ensures Without(a + b, x) == Without(a, x) + Without(b, x)
    decreases |a|
  {
    if a == [] {
      assert a + b == b;
    } else {
      assert (a + b)[0] == a[0];
      assert (a + b)[1..] == a[1..] + b;
      WithoutConcat(a[1..], b, x);
    }
  }

  /** Removing one entity from a singleton. */
  lemma WithoutSingleton(e: Entity, x: Entity)
    ensures Without([e], x) == if e == x then [] else [e]
  {
    assert [e][1..] == [];
  }

  /**
   * Removing an entity other than the one the last-match lookup finds does
   * not change what it finds, so the lookup keeps returning the most recently
   * added surviving match.
   */
  lemma {:induction false} FindLastAfterWithout(s: seq<Entity>, x: Entity, k: Key)
    requires FindLast(s, k) != x
    ensures FindLast(Without(s, x), k) == FindLast(s, k)
    decreases |s|
  {
    if s != [] {
      var init := s[..|s| - 1];
      var e := s[|s| - 1];
      var w := Without(init, x);
      assert s == init + [e];
      assert Without(s, x) == w + Without([e], x) by {
        WithoutConcat(init, [e], x);
      }
      assert FindLast(s, k) == if Matches(e, k) then e else FindLast(init, k) by {
        FindLastSnoc(init, e, k);
      }
      WithoutSingleton(e, x);
      if e == x {
        assert w + [] == w;
        FindLastAfterWithout(init, x, k);
      } else {
        FindLastSnoc(w, e, k);
        if !Matches(e, k) {
          FindLastAfterWithout(init, x, k);
        }
      }
    }
  }

  // ---------------------------------------------------------------------------
  // Animatables
  // ---------------------------------------------------------------------------

  /** A running Animatable: the object it animates and the names of its animations. */
  datatype Animatable = Animatable(target: object, animations: seq<string>)

  /** The animation names without name, the others keeping their order. */
  function WithoutName(names: seq<string>, name: string): (r: seq<string>)
    ensures forall n :: n in r <==> n in names && n != name
    decreases |names|
  {
    if names == [] then []
    else
      var rest := WithoutName(names[1..], name);
      assert names == [names[0]] + names[1..];
      if names[0] == name then rest else [names[0]] + rest
  }

  /**
   * The active animatables after stopAnimation(target, name): with an empty
   * name every animatable of target is stopped and dropped; otherwise the
   * animations called name are stopped, and an animatable of target left
   * without animations is dropped.
   */
  function Stopped(s: seq<Animatable>, target: object, name: string): (r: seq<Animatable>)
    ensures |r| <= |s|
    decreases |s|
  {
    if s == [] then []
    else
      var rest := Stopped(s[1..], target, name);
      if s[0].target != target then [s[0]] + rest
      else if name == "" then rest
      else
        var kept := WithoutName(s[0].animations, name);
        if kept == [] then rest else [Animatable(target, kept)] + rest
  }

  /** Some active animatable animates target with an animation called name. */
  ghost predicate IsRunning(s: seq<Animatable>, target: object, name: string)
  {
    exists i :: 0 <= i < |s| && s[i].target == target && name in s[i].animations
  }

  /**
   * stopAnimation(target, name) stops exactly what it names: an animation keeps
   * running if and only if it belongs to another target, or name is not empty
   * and is not its name.
   */
  lemma {:induction false} StoppedRunning(s: seq<Animatable>, target: object, name: string, t: object, n: string)
    ensures IsRunning(Stopped(s, target, name), t, n)
        <==> IsRunning(s, t, n) && !(t == target && (name == "" || n == name))
    decreases |s|
  {
    if s != [] {
      var r := Stopped(s, target, name);
      var rest := Stopped(s[1..], target, name);
      StoppedRunning(s[1..], target, name, t, n);
      assert IsRunning(s, t, n) <==> (s[0].target == t && n in s[0].animations) || IsRunning(s[1..], t, n) by {
        if IsRunning(s[1..], t, n) {
          var i :| 0 <= i < |s[1..]| && s[1..][i].target == t && n in s[1..][i].animations;
          assert s[i + 1] == s[1..][i];
        }
        if IsRunning(s, t, n) && !(s[0].target == t && n in s[0].animations) {
          var i :| 0 <= i < |s| && s[i].target == t && n in s[i].animations;
          assert s[1..][i - 1] == s[i];
        }
      }
      IsRunningCons(r, rest, t, n);
    }
  }

  /** How IsRunning reads a sequence that is rest, possibly with one animatable in front. */
  lemma IsRunningCons(r: seq<Animatable>, rest: seq<Animatable>, t: object, n: string)
    requires r == rest || (|r| > 0 && r[1..] == rest)
    ensures r == rest ==> (IsRunning(r, t, n) <==> IsRunning(rest, t, n))
    ensures r != rest ==> (IsRunning(r, t, n) <==> (r[0].target == t && n in r[0].animations) || IsRunning(rest, t, n))
  {
    if r != rest {
      if IsRunning(rest, t, n) {
        var i :| 0 <= i < |rest| && rest[i].target == t && n in rest[i].animations;
        assert r[i + 1] == rest[i];
      }
      if IsRunning(r, t, n) && !(r[0].target == t && n in r[0].animations) {
        var i :| 0 <= i < |r| && r[i].target == t && n in r[i].animations;
        assert rest[i - 1] == r[i];
      }
    }
  }

  /** stopAnimation(target, "") leaves no active animatable for target. */
  lemma {:induction false} StopAllLeavesNone(s: seq<Animatable>, target: object)
    ensures forall a :: a in Stopped(s, target, "") ==> a.target != target
    decreases |s|
  {
    if s != [] {
      StopAllLeavesNone(s[1..], target);
    }
  }

  /** The animatables of s whose target is not target, in order. */
  function Others(s: seq<Animatable>, target: object): (r: seq<Animatable>)
    ensures forall i :: 0 <= i < |r| ==> r[i] in s && r[i].target != target
    decreases |s|
  {
    if s == [] then []
    else
      var rest := Others(s[1..], target);
      assert forall a :: a in s[1..] ==> a in s;
      if s[0].target == target then rest else [s[0]] + rest
  }

  /** stopAnimation leaves the animatables of other targets exactly as they were, in order. */
  lemma {:induction false} StoppedKeepsOthers(s: seq<Animatable>, target: object, name: string)
    ensures Others(Stopped(s, target, name), target) == Others(s, target)
    decreases |s|
  {
    if s != [] {
      StoppedKeepsOthers(s[1..], target, name);
    }
  }

  // ---------------------------------------------------------------------------
  // The scene
  // ---------------------------------------------------------------------------

  class Scene {
    var meshes: seq<Entity>
    var cameras: seq<Entity>
    var lights: seq<Entity>
    var materials: seq<Entity>
    var geometries: seq<Entity>         // _geometries
    var activeCamera: Entity?
    var activeAnimatables: seq<Animatable>

    /** A scene with empty collections and no active camera. */
    constructor ()
      ensures meshes == [] && cameras == [] && lights == [] && materials == [] && geometries == []
      ensures activeCamera == null && activeAnimatables == []
    {
      meshes, cameras, lights, materials, geometries := [], [], [], [], [];
      activeCamera := null;
      activeAnimatables := [];
    }

    /** addMesh: the new mesh is appended and nothing else changes. */
    method AddMesh(newMesh: Entity)
      modifies this`meshes
      ensures meshes == old(meshes) + [newMesh]
    {
      meshes := meshes + [newMesh];
    }

    /** removeMesh: the mesh leaves the collection, the others keep their order. */
    method RemoveMesh(toRemove: Entity)
      modifies this`meshes
      ensures meshes == Without(old(meshes), toRemove)
      ensures toRemove !in meshes
    {
      meshes := Without(meshes, toRemove);
    }

    /** getMeshByID: the earliest-added mesh with the id, or null when there is none. */
    function GetMeshById(id: string): (r: Entity?)
      reads this
      ensures r == null <==> forall i :: 0 <= i < |meshes| ==> meshes[i].id != id
      ensures r != null ==> exists i :: IsFirst(meshes, i, ById(id)) && meshes[i] == r
    {
      Find(meshes, ById(id))
    }

    /** getLastMeshByID: the most recently added mesh with the id, or null when there is none. */
    function GetLastMeshById(id: string): (r: Entity?)
      reads this
      ensures r == null <==> forall i :: 0 <= i < |meshes| ==> meshes[i].id != id
      ensures r != null ==> exists i :: IsLast(meshes, i, ById(id)) && meshes[i] == r
    {
      FindLast(meshes, ById(id))
    }

    /** getMeshesByID: every mesh with the id; empty exactly when getMeshByID finds nothing. */
    function GetMeshesById(id: string): (r: seq<Entity>)
      reads this
      ensures forall i :: 0 <= i < |r| ==> r[i] in meshes && r[i].id == id
      ensures forall i :: 0 <= i < |meshes| && meshes[i].id == id ==> meshes[i] in r
      ensures r == [] <==> GetMeshById(id) == null
    {
      FindAll(meshes, ById(id))
    }

    /** getMeshByUniqueID: the mesh with the unique id, or null when there is none. */
    function GetMeshByUniqueId(uniqueId: nat): (r: Entity?)
      reads this
      ensures r == null <==> forall i :: 0 <= i < |meshes| ==> meshes[i].uniqueId != uniqueId
      ensures r != null ==> r in meshes && r.uniqueId == uniqueId
    {
      Find(meshes, ByUniqueId(uniqueId))
    }

    /** getCameraByID: the first camera with the id, or null. */
    function GetCameraById(id: string): (r: Entity?)
      reads this
      ensures r == null <==> forall i :: 0 <= i < |cameras| ==> cameras[i].id != id
      ensures r != null ==> exists i :: IsFirst(cameras, i, ById(id)) && cameras[i] == r
    {
      Find(cameras, ById(id))
    }

    /** getCameraByName: the first camera with the name, or null. */
    function GetCameraByName(name: string): (r: Entity?)
      reads this
      ensures r == null <==> forall i :: 0 <= i < |cameras| ==> cameras[i].name != name
      ensures r != null ==> exists i :: IsFirst(cameras, i, ByName(name)) && cameras[i] == r
    {
      Find(cameras, ByName(name))
    }

    /** getMaterialByID: the first material with the id, or null. */
    function GetMaterialById(id: string): (r: Entity?)
      reads this
      ensures r == null <==> forall i :: 0 <= i < |materials| ==> materials[i].id != id
      ensures r != null ==> exists i :: IsFirst(materials, i, ById(id)) && materials[i] == r
    {
      Find(materials, ById(id))
    }

    /** getMaterialByName: the first material with the name, or null. */
    function GetMaterialByName(name: string): (r: Entity?)
      reads this
      ensures r == null <==> forall i :: 0 <= i < |materials| ==> materials[i].name != name
      ensures r != null ==> exists i :: IsFirst(materials, i, ByName(name)) && materials[i] == r
    {
      Find(materials, ByName(name))
    }

    /** getLightByID: the first light with the id, or null. */
    function GetLightById(id: string): (r: Entity?)
      reads this
      ensures r == null <==> forall i :: 0 <= i < |lights| ==> lights[i].id != id
      ensures r != null ==> exists i :: IsFirst(lights, i, ById(id)) && lights[i] == r
    {
      Find(lights, ById(id))
    }

    /** getLightByName: the first light with the name, or null. */
    function GetLightByName(name: string): (r: Entity?)
      reads this
      ensures r == null <==> forall i :: 0 <= i < |lights| ==> lights[i].name != name
      ensures r != null ==> exists i :: IsFirst(lights, i, ByName(name)) && lights[i] == r
    {
      Find(lights, ByName(name))
    }

    /** getGeometryByID: the first geometry with the id, or null. */
    function GetGeometryById(id: string): (r: Entity?)
      reads this
      ensures r == null <==> forall i :: 0 <= i < |geometries| ==> geometries[i].id != id
      ensures r != null ==> r in geometries && r.id == id
    {
      Find(geometries, ById(id))
    }

    /**
     * setActiveCameraByID: the camera getCameraByID finds becomes the active
     * camera and is returned; when there is none, null is returned and the
     * active camera stays.
     */
    method SetActiveCameraById(id: string) returns (camera: Entity?)
      modifies this`activeCamera
      ensures camera == GetCameraById(id)
      ensures camera != null ==> activeCamera == camera
      ensures camera == null ==> activeCamera == old(activeCamera)
    {
      camera := Find(cameras, ById(id));
      if camera != null {
        activeCamera := camera;
      }
    }

    /** setActiveCameraByName: as setActiveCameraByID, looking the camera up by name. */
    method SetActiveCameraByName(name: string) returns (camera: Entity?)
      modifies this`activeCamera
      ensures camera == GetCameraByName(name)
      ensures camera != null ==> activeCamera == camera
      ensures camera == null ==> activeCamera == old(activeCamera)
    {
      camera := Find(cameras, ByName(name));
      if camera != null {
        activeCamera := camera;
      }
    }

    /**
     * pushGeometry(geometry, force): without force, a geometry whose id is
     * already taken is not added; with force it is added regardless. The
     * result says whether it was added.
     */
    method PushGeometry(geometry: Entity, force: bool) returns (added: bool)
      modifies this`geometries
      ensures added <==> force || old(GetGeometryById(geometry.id)) == null
      ensures added ==> geometries == old(geometries) + [geometry]
      ensures !added ==> geometries == old(geometries)
      ensures added ==> geometry in geometries
    {
      if !force && Find(geometries, ById(geometry.id)) != null {
        added := false;
      } else {
        geometries := geometries + [geometry];
        added := true;
      }
    }

    /** removeGeometry: true exactly when the geometry was in the scene; it is absent afterwards. */
    method RemoveGeometry(geometry: Entity) returns (removed: bool)
      modifies this`geometries
      ensures removed <==> geometry in old(geometries)
      ensures geometries == Without(old(geometries), geometry)
      ensures geometry !in geometries
    {
      removed := geometry in geometries;
      geometries := Without(geometries, geometry);
    }

    /** stopAnimation(target, animationName): see Stopped. */
    method StopAnimation(target: object, animationName: string)
      modifies this`activeAnimatables
      ensures activeAnimatables == Stopped(old(activeAnimatables), target, animationName)
    {
      activeAnimatables := Stopped(activeAnimatables, target, animationName);
    }
  }

  /**
   * Two meshes sharing an id: getMeshByID finds the first-added and
   * getLastMeshByID the last-added, and once the first is removed
   * getMeshByID finds the second.
   */
  method SharedIdLookups(scene: Scene, a: Entity, b: Entity) returns (first: Entity?, last: Entity?, afterRemoval: Entity?)
    requires scene.meshes == [] && a != b && a.id == b.id
    modifies scene
    ensures first == a && last == b && afterRemoval == b
    ensures scene.meshes == [b]
    ensures scene.GetMeshById(a.id) == b && scene.GetLastMeshById(a.id) == b
  {
    scene.AddMesh(a);
    scene.AddMesh(b);
    assert scene.meshes == [a] + [b];
    first := scene.GetMeshById(a.id);
    assert first == a by {
      FindAfterAppend([a], b, ById(a.id));
      assert Matches([a][0], ById(a.id));
    }
    last := scene.GetLastMeshById(a.id);
    assert last == b by {
      FindLastAfterAppend([a], b, ById(a.id));
    }
    scene.RemoveMesh(a);
    assert scene.meshes == [b];
    afterRemoval := scene.GetMeshById(a.id);
    SingleMatchFirstIsLast([b], ById(a.id), 0);
  }
}
