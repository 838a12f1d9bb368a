/** The client that keeps the server's obstacles in step with the planning scene, object by object. */
module ServiceClients {
  import opened Names
  import opened Mirror

  /** The obstacle services as the client sees them. */
  class Server {
    var objects: map<string, Part>
    var calls: nat
    const reply: nat -> Outcome

    constructor (reply: nat -> Outcome)
      ensures this.reply == reply && objects == map[] && calls == 0
    {
      this.reply, objects, calls := reply, map[], 0;
    }

    /** A duplicate name is refused; success is only seen when the reply comes in time. */
    method AddObject(name: string, part: Part) returns (ok: bool)
      modifies this
      ensures calls == old(calls) + 1
      ensures objects == if reply(old(calls)).Unserved? || name in old(objects) then old(objects)
                         else old(objects)[name := part]
      ensures ok == (reply(old(calls)).Answered? && name !in old(objects))
    {
      var o := reply(calls);
      calls := calls + 1;
      ok := false;
      if !o.Unserved? && name !in objects {
        objects := objects[name := part];
        ok := o.Answered?;
      }
    }

    method RemoveObject(name: string)
      modifies this
      ensures calls == old(calls) + 1
      ensures objects == if reply(old(calls)).Unserved? then old(objects) else old(objects) - {name}
    {
      if !reply(calls).Unserved? {
        objects := objects - {name};
      }
      calls := calls + 1;
    }
  }

  class ServiceClient {
    var groups: seq<Group>
    var sigs: map<string, string>
    var geometry: map<string, Part>
    const server: Server
    const sign: Part -> string

    constructor (server: Server, sign: Part -> string)
      ensures this.server == server && this.sign == sign
      ensures View() == World([], map[], map[], server.objects, server.calls)
    {
      this.server, this.sign := server, sign;
      groups, sigs, geometry := [], map[], map[];
    }

    function View(): World
      reads this, server
    {
      World(groups, sigs, geometry, server.objects, server.calls)
    }

    function Services(): Env {
      Env(server.reply, sign)
    }

    method RemoveCuroboObject(name: string)
      modifies this, server
      ensures View() == RemoveMember(Services(), old(View()), name)
      ensures sigs == old(sigs) - {name} && geometry == old(geometry) - {name} && groups == old(groups)
    {
      server.RemoveObject(name);
      sigs := sigs - {name};
      geometry := geometry - {name};
    }

    method RemoveGroup(members: seq<string>)
      modifies this, server
      ensures View() == RemoveAll(Services(), old(View()), members, |members|)
    {
      var i := 0;
      while i < |members|
        invariant 0 <= i <= |members|
        invariant View() == RemoveAll(Services(), old(View()), members, i)
      {
        RemoveCuroboObject(members[i]);
        i := i + 1;
      }
    }

    method EraseGroup(at: nat, ghost now: World)
      requires at < |groups| && View() == now.(groups := groups)
      modifies this, server
      ensures groups == old(groups)[..at] + old(groups)[at + 1..]
      ensures View() == DropGroup(Services(), now, old(groups)[at]).(groups := groups)
    {
      var g := groups[at];
      ghost var before := View();
      RemoveGroup(g.members);
      RemoveIgnoresGroups(Services(), before, now, g.members, |g.members|);
      groups := groups[..at] + groups[at + 1..];
    }

    /** The walk stands at position `at`, having visited the first `i` of the groups in `was`. */
    ghost predicate Walking(was: World, wanted: seq<string>, i: nat, at: nat)
      reads this, server
    {
      && i <= |was.groups|
      && at == |KeepWanted(was.groups[..i], wanted)|
      && groups == KeepWanted(was.groups[..i], wanted) + was.groups[i..]
      && View() == DropStale(Services(), was, wanted, i).(groups := groups)
    }

    method VisitGroup(ghost was: World, wanted: seq<string>, ghost i: nat, at: nat) returns (next: nat)
      requires at < |groups| && i < |was.groups| && Walking(was, wanted, i, at)
      modifies this, server
      ensures Walking(was, wanted, i + 1, next)
    {
      var g := groups[at];
      WalkNext(was.groups, wanted, i, groups, at);
      if g.base in wanted {
        next := at + 1;
      } else {
        EraseGroup(at, DropStale(Services(), was, wanted, i));
        next := at;
      }
    }

    /** Erases the groups nobody wants while walking over them. */
    method RemoveStaleGroups(wanted: seq<string>)
      modifies this, server
      ensures View() == WithoutStale(Services(), old(View()), wanted)
    {
      ghost var was := View();
      var at: nat := 0;
      ghost var i: nat := 0;
      WalkStart(was, wanted);
      while at < |groups|
        invariant Walking(was, wanted, i, at)
        decreases |was.groups| - i
      {
        at := VisitGroup(was, wanted, i, at);
        i := i + 1;
      }
      WalkEnd(was.groups, wanted, i);
    }

    /** Brings one part up to date; tells whether it is mirrored now. */
    method SyncOne(name: string, part: Part) returns (kept: bool)
      modifies this, server
      ensures (View(), kept) == SyncPart(Services(), old(View()), name, part)
    {
      var sig := sign(part);
      if name in sigs && sigs[name] == sig {
        return true;
      }
      if part.solid.kind.Unsupported? {
        return false;
      }
      if name in sigs {
        RemoveCuroboObject(name);
      }
      var ok := server.AddObject(name, part);
      if !ok {
        return false;
      }
      sigs := sigs[name := sig];
      geometry := geometry[name := part];
      return true;
    }

    method SyncObject(base: string, parts: seq<Part>) returns (members: seq<string>)
      modifies this, server
      ensures (View(), members) == SyncParts(Services(), old(View()), base, parts, |parts|)
    {
      members := [];
      var i := 0;
      while i < |parts|
        invariant 0 <= i <= |parts|
        invariant (View(), members) == SyncParts(Services(), old(View()), base, parts, i)
      {
        var name := MemberName(base, i, |parts|);
        var kept := SyncOne(name, parts[i]);
        if kept {
          members := members + [name];
        }
        i := i + 1;
      }
    }

    method WantedNames(scene: Scene) returns (wanted: seq<string>)
      ensures wanted == Wanted(scene)
    {
      wanted := Bases(scene.world);
      var i := 0;
      while i < |scene.attached|
        invariant 0 <= i <= |scene.attached|
        invariant wanted == WantedTo(scene, i)
      {
        if scene.attached[i] !in wanted {
          wanted := wanted + [scene.attached[i]];
        }
        i := i + 1;
      }
    }

    /** One wanted id: carried over, absent, empty, or mirrored part by part. */
    method SyncWanted(scene: Scene, base: string) returns (group: seq<Group>)
      modifies this, server
      ensures (View(), group) == SyncBase(Services(), old(View()), scene, base)
    {
      if base in scene.attached {
        return Find(groups, base);
      }
      var found := Lookup(scene.world, base);
      if found == [] || found[0].solids == [] || found[0].poses == [] {
        assert StaticParts(scene, base) == [];
        return [];
      }
      var members := SyncObject(base, PartsOf(found[0]));
      group := if members == [] then [] else [Group(base, members)];
    }

    method SyncWantedAll(scene: Scene, wanted: seq<string>) returns (newGroups: seq<Group>)
      modifies this, server
      ensures (View(), newGroups) == SyncBases(Services(), old(View()), scene, wanted, |wanted|)
    {
      newGroups := [];
      var i := 0;
      while i < |wanted|
        invariant 0 <= i <= |wanted|
        invariant (View(), newGroups) == SyncBases(Services(), old(View()), scene, wanted, i)
      {
        var group := SyncWanted(scene, wanted[i]);
        newGroups := newGroups + group;
        i := i + 1;
      }
    }

    /** The whole sync, as its specification says it. */
    method SyncPlanningScene(scene: Scene)
      modifies this, server
      ensures View() == Sync(Services(), old(View()), scene)
    {
      var wanted := WantedNames(scene);
      RemoveStaleGroups(wanted);
      var newGroups := SyncWantedAll(scene, wanted);
      groups := newGroups;
    }
  }

  lemma WalkStart(was: World, wanted: seq<string>)
    ensures was.groups[..0] == [] && KeepWanted(was.groups[..0], wanted) == []
    ensures [] + was.groups[0..] == was.groups
  {
  }

  lemma WalkEnd(all: seq<Group>, wanted: seq<string>, i: nat)
    requires i == |all|
    ensures KeepWanted(all[..i], wanted) + all[i..] == KeepWanted(all, wanted)
  {
    assert all[..i] == all && all[i..] == [];
    assert KeepWanted(all, wanted) + [] == KeepWanted(all, wanted);
  }

  lemma WalkNext(all: seq<Group>, wanted: seq<string>, i: nat, now: seq<Group>, at: nat)
    requires i < |all| && at == |KeepWanted(all[..i], wanted)| && now == KeepWanted(all[..i], wanted) + all[i..]
    ensures now[at] == all[i]
    ensures all[i].base in wanted ==> now == KeepWanted(all[..i + 1], wanted) + all[i + 1..]
    ensures all[i].base !in wanted ==> now[..at] + now[at + 1..] == KeepWanted(all[..i + 1], wanted) + all[i + 1..]
    ensures |KeepWanted(all[..i + 1], wanted)| == if all[i].base in wanted then at + 1 else at
  {
    var before := all[..i];
    assert all[..i + 1][..i] == before && all[..i + 1][i] == all[i];
    assert all[i..] == [all[i]] + all[i + 1..];
  }

  /** Removals do not look at the groups. */
  lemma {:induction false} RemoveIgnoresGroups(env: Env, v: World, w: World, names: seq<string>, i: nat)
    requires i <= |names| && v == w.(groups := v.groups)
    ensures RemoveAll(env, v, names, i) == RemoveAll(env, w, names, i).(groups := v.groups)
  {
    if i > 0 {
      RemoveIgnoresGroups(env, v, w, names, i - 1);
    }
  }
}
