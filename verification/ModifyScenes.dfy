/** The zero-cost stage that edits the scene, and what a chain of them carries along. */
module ModifyScenes {
  import opened Interfaces
  import opened SceneDiffs

  /** The stage's parameters; an empty name counts as not given. */
  datatype Params = Params(
    attach: string,
    detach: string,
    add: Option<ObjectSpec>,
    remove: string,
    allow: Option<(string, seq<string>, bool)>)

  /** The first parameter given decides, in a fixed order. */
  function Chosen(p: Params): Option<Edit> {
    if p.attach != "" then Some(Attach(p.attach))
    else if p.detach != "" then Some(Detach(p.detach))
    else if p.add.Some? then Some(AddObject(p.add.value))
    else if p.remove != "" then Some(RemoveObject(p.remove))
    else if p.allow.Some? then Some(Collisions(p.allow.value.0, p.allow.value.1, p.allow.value.2))
    else None
  }

  /** One computation: the next scene and the operations recorded for it, or a failure. */
  method ComputeForward(scene: SceneDiff, p: Params) returns (r: Option<(SceneDiff, seq<SceneOp>)>)
    ensures r.None? <==> Chosen(p).None?
    ensures r.Some? ==> r.value == (Edited(scene, Chosen(p).value), OpsOf(Chosen(p).value))
    ensures p.attach != "" ==>
              r == Some((scene.(attached := Some(p.attach), detached := None, added := Pop(scene.added, p.attach)),
                         [AttachOp(p.attach)]))
    ensures p.attach == "" && p.detach != "" ==>
              r == Some((scene.(detached := Some(p.detach),
                                attached := if scene.attached == Some(p.detach) then None else scene.attached),
                         [DetachOp(p.detach)]))
    ensures p.attach == "" && p.detach == "" && p.add.Some? ==>
              var o := p.add.value;
              r == Some((scene.(added := Put(scene.added, o),
                                removed := if o.name in scene.removed then Without(scene.removed, o.name)
                                           else scene.removed),
                         [AddOp(o.name, o.spec)]))
    ensures p.attach == "" && p.detach == "" && p.add.None? && p.remove != "" ==>
              r == Some((scene.(removed := if p.remove in scene.removed then scene.removed
                                           else scene.removed + [p.remove],
                                added := Pop(scene.added, p.remove)),
                         [RemoveOp(p.remove)]))
    ensures p.attach == "" && p.detach == "" && p.add.None? && p.remove == "" ==>
              match p.allow
              case None => r.None?
              case Some((name, links, enabled)) =>
                r.Some? && r.value.1 == [] && r.value.0 == scene.(disabled := r.value.0.disabled)
                && forall n, l :: (n, l) in r.value.0.disabled <==>
                                    if n == name && l in links then enabled else (n, l) in scene.disabled
  {
    if p.attach != "" {
      r := Some((WithAttached(scene, p.attach), [AttachOp(p.attach)]));
    } else if p.detach != "" {
      r := Some((WithDetached(scene, p.detach), [DetachOp(p.detach)]));
    } else if p.add.Some? {
      r := Some((WithObjectAdded(scene, p.add.value), [AddOp(p.add.value.name, p.add.value.spec)]));
    } else if p.remove != "" {
      r := Some((WithObjectRemoved(scene, p.remove), [RemoveOp(p.remove)]));
    } else if p.allow.Some? {
      var (name, links, enabled) := p.allow.value;
      r := Some((WithCollisions(scene, name, links, enabled), []));
    } else {
      r := None;
    }
  }

  predicate AllChosen(ps: seq<Params>) {
    forall k :: 0 <= k < |ps| ==> Chosen(ps[k]).Some?
  }

  function Edits(ps: seq<Params>): (edits: seq<Edit>)
    requires AllChosen(ps)
  {
    seq(|ps|, k requires 0 <= k < |ps| => Chosen(ps[k]).value)
  }

  /** A chain of such stages: the scene the last one hands on, and all the operations recorded. */
  method ComputeChain(ps: seq<Params>) returns (scene: SceneDiff, ops: seq<SceneOp>)
    requires AllChosen(ps)
    ensures scene == EditedAll(Edits(ps)) && ops == EditOps(Edits(ps))
  {
    scene, ops := NO_CHANGE, [];
    for i := 0 to |ps|
      invariant scene == EditedAll(Edits(ps)[..i]) && ops == EditOps(Edits(ps)[..i])
    {
      var r := ComputeForward(scene, ps[i]);
      scene, ops := r.value.0, ops + r.value.1;
      assert Edits(ps)[..i + 1][..i] == Edits(ps)[..i];
    }
    assert Edits(ps)[..|ps|] == Edits(ps);
  }
}
