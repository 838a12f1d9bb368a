/** What an answered sync makes of a mirror that failing calls have left behind: an object on the
    server that no record names blocks its name. */
module MirrorHealing {
  import opened Names
  import opened Mirror
  import opened MirrorSafety
  import opened MirrorAgreement

  /** The names of the server's objects that are not ours. */
  function Blocked(w: World): set<string> {
    w.server.Keys - w.sigs.Keys
  }

  lemma FreeBoth(d: map<string, Part>, e: map<string, Part>, blocked: set<string>)
    ensures (d - blocked) + (e - blocked) == (d + e) - blocked
  {
  }

  lemma FreeNone(w: World)
    ensures Placed(w, w, map[] - Blocked(w))
  {
    var none: map<string, Part> := map[];
    AddNone(w);
    assert none - Blocked(w) == none;
  }

  lemma BlockedStays(env: Env, u: World, v: World, e: map<string, Part>)
    requires Sound(env, u) && Sound(env, v) && Placed(u, v, e - Blocked(u))
    ensures Blocked(v) == Blocked(u)
  {
    assert v.sigs.Keys == u.sigs.Keys + (e - Blocked(u)).Keys;
    assert v.server.Keys == u.server.Keys + (e - Blocked(u)).Keys;
  }

  function PartAt(name: string, part: Part): map<string, Part> {
    if part.solid.kind.Unsupported? then map[] else map[name := part]
  }

  /** A part is put in place unless its name is blocked. */
  lemma FreePart(env: Env, play: set<Part>, w: World, name: string, part: Part)
    requires Reliable(env, play) && GeometryIn(w.geometry, play) && part in play && Sound(env, w)
    ensures Placed(w, SyncPart(env, w, name, part).0, PartAt(name, part) - Blocked(w))
  {
    if Foreign(w, name) {
      AddNone(w);
      assert PartAt(name, part) - Blocked(w) == map[];
    } else {
      SyncPartPlaces(env, play, w, name, part);
      assert PartAt(name, part) - Blocked(w) == PartAt(name, part);
    }
  }

  /** Two placements, each short of the blocked names, one after the other. */
  lemma FreeTwice(env: Env, u: World, v: World, w: World, d: map<string, Part>, e: map<string, Part>)
    requires Sound(env, u) && Sound(env, v) && Placed(u, v, d - Blocked(u)) && Placed(v, w, e - Blocked(v))
    ensures Placed(u, w, (d + e) - Blocked(u))
  {
    BlockedStays(env, u, v, d);
    PlacedTwice(u, v, w, d - Blocked(u), e - Blocked(u));
    FreeBoth(d, e, Blocked(u));
  }

  lemma FreeIn(u: World, v: World, e: map<string, Part>, blocked: set<string>, play: set<Part>)
    requires Placed(u, v, e - blocked) && GeometryIn(u.geometry, play) && GeometryIn(e, play)
    ensures GeometryIn(v.geometry, play)
  {
  }

  lemma FreeNextPart(env: Env, play: set<Part>, w: World, base: string, parts: seq<Part>, i: nat)
    requires i < |parts| && Reliable(env, play) && GeometryIn(w.geometry, play) && PartsIn(parts, play) && Sound(env, w)
    requires Placed(w, SyncParts(env, w, base, parts, i).0, Expand(base, parts, i) - Blocked(w))
    ensures Placed(w, SyncParts(env, w, base, parts, i + 1).0, Expand(base, parts, i + 1) - Blocked(w))
  {
    var before, name := SyncParts(env, w, base, parts, i).0, MemberName(base, i, |parts|);
    NextPart(env, w, base, parts, i);
    SyncPartsSound(env, w, base, parts, i);
    ExpandIn(base, parts, i, play);
    FreeIn(w, before, Expand(base, parts, i), Blocked(w), play);
    FreePart(env, play, before, name, parts[i]);
    FreeTwice(env, w, before, SyncPart(env, before, name, parts[i]).0, Expand(base, parts, i), PartAt(name, parts[i]));
    ExpandStep(base, parts, i);
  }

  lemma FreeParts(env: Env, play: set<Part>, w: World, base: string, parts: seq<Part>)
    requires Reliable(env, play) && GeometryIn(w.geometry, play) && PartsIn(parts, play) && Sound(env, w)
    ensures Placed(w, SyncParts(env, w, base, parts, |parts|).0, Expand(base, parts, |parts|) - Blocked(w))
  {
    FreeNone(w);
    for i := 0 to |parts|
      invariant Placed(w, SyncParts(env, w, base, parts, i).0, Expand(base, parts, i) - Blocked(w))
    {
      FreeNextPart(env, play, w, base, parts, i);
    }
  }

  lemma FreeBase(env: Env, play: set<Part>, w: World, scene: Scene, base: string)
    requires Reliable(env, play) && GeometryIn(w.geometry, play) && SceneIn(scene, play) && Sound(env, w)
    ensures Placed(w, SyncBase(env, w, scene, base).0, ExpandBase(scene, base) - Blocked(w))
  {
    var parts := StaticParts(scene, base);
    FreeParts(env, play, w, base, parts);
    if base in scene.attached {
      FreeNone(w);
    }
  }

  /** `r` is `w` with `e` put in place, short of what is blocked. */
  ghost predicate PlacedFree(w: World, r: (World, seq<Group>), e: map<string, Part>) {
    Placed(w, r.0, e - Blocked(w))
  }

  lemma FreeNextBase(env: Env, play: set<Part>, w: World, scene: Scene, wanted: seq<string>, i: nat)
    requires i < |wanted|
    requires Reliable(env, play) && GeometryIn(w.geometry, play) && SceneIn(scene, play) && Sound(env, w)
    requires PlacedFree(w, SyncBases(env, w, scene, wanted, i), Merged(Layers(scene, wanted), i))
    ensures PlacedFree(w, SyncBases(env, w, scene, wanted, i + 1), Merged(Layers(scene, wanted), i + 1))
  {
    var before, layers := SyncBases(env, w, scene, wanted, i).0, Layers(scene, wanted);
    NextBase(env, w, scene, wanted, i);
    SyncBasesSound(env, w, scene, wanted, i);
    LayersIn(scene, wanted, play);
    FreeIn(w, before, Merged(layers, i), Blocked(w), play);
    FreeBase(env, play, before, scene, wanted[i]);
    FreeTwice(env, w, before, SyncBase(env, before, scene, wanted[i]).0, Merged(layers, i), layers[i]);
  }

  lemma FreeBases(env: Env, play: set<Part>, w: World, scene: Scene, wanted: seq<string>)
    requires Reliable(env, play) && GeometryIn(w.geometry, play) && SceneIn(scene, play) && Sound(env, w)
    ensures PlacedFree(w, SyncBases(env, w, scene, wanted, |wanted|), Merged(Layers(scene, wanted), |wanted|))
  {
    FreeNone(w);
    for i := 0 to |wanted|
      invariant PlacedFree(w, SyncBases(env, w, scene, wanted, i), Merged(Layers(scene, wanted), i))
    {
      FreeNextBase(env, play, w, scene, wanted, i);
    }
  }

  /** The names that block a sync: of objects no record names and that no stale group names. */
  function Blocking(w: World, scene: Scene): set<string> {
    Blocked(w) - StaleNames(w, scene)
  }

  /** With every call answered, a sync of any reached mirror removes the members of the groups no longer
      wanted and puts in place what is not blocked; everything else stays as it was. */
  lemma SyncPlacesFree(env: Env, play: set<Part>, w: World, scene: Scene)
    requires Reliable(env, play) && GeometryIn(w.geometry, play) && SceneIn(scene, play) && Sound(env, w)
    ensures var v := Sync(env, w, scene);
            && v.geometry == w.geometry - StaleNames(w, scene) + (Expansion(scene) - Blocking(w, scene))
            && v.server == w.server - StaleNames(w, scene) + (Expansion(scene) - Blocking(w, scene))
            && Sound(env, v)
  {
    var wanted := Wanted(scene);
    DropStaleClears(env, w, wanted, |w.groups|);
    DropStaleSound(env, w, wanted, |w.groups|);
    var u := WithoutStale(env, w, wanted);
    assert Blocked(u) == Blocking(w, scene);
    FreeBases(env, play, u, scene, wanted);
    SyncBasesSound(env, u, scene, wanted, |wanted|);
  }

  /** Everything the scene should look like is on the server and recorded. */
  ghost predicate ShowsAll(w: World, scene: Scene) {
    forall m :: m in Expansion(scene) ==>
                  && m in w.server && w.server[m] == Expansion(scene)[m]
                  && m in w.geometry && w.geometry[m] == Expansion(scene)[m]
  }

  /** However the calls of the syncs so far fared, the next answered sync shows the whole scene exactly
      when no object of the scene has the name of an unrecorded object that no stale group names. */
  lemma HealsExactly(env: Env, later: Env, play: set<Part>, server: map<string, Part>, scenes: seq<Scene>, scene: Scene)
    requires later.sign == env.sign && Reliable(later, play) && SceneIn(scene, play)
    requires GeometryIn(SyncAll(env, Unsynced(server), scenes).geometry, play)
    ensures var w := SyncAll(env, Unsynced(server), scenes);
            ShowsAll(Sync(later, w, scene), scene) <==> Expansion(scene).Keys !! Blocking(w, scene)
  {
    var w := SyncAll(env, Unsynced(server), scenes);
    RunSound(env, server, scenes);
    SyncPlacesFree(later, play, w, scene);
    var v, e, blocking := Sync(later, w, scene), Expansion(scene), Blocking(w, scene);
    if ShowsAll(v, scene) {
      forall m | m in e ensures m !in blocking {
        assert m in v.geometry;
      }
    }
    if e.Keys !! blocking {
      assert e - blocking == e;
    }
  }
}
