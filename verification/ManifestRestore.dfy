/** Pushed components across a restart: the persistent manifest
    (crates/agent/src/p2p/state.rs), the staged artifacts (p2p/handlers/push.rs)
    and their restoration (supervisor.rs, restore_from_disk). */
module ManifestRestore {
  import opened Wrappers
  import opened ByteStrings
  import opened Components
  import Supervision
  import opened Supervisors

  type Manifest = map<string, ComponentSpec>

  /** desired_manifest.toml: absent, not parseable, or a manifest. */
  datatype ManifestFile = Missing | Garbled | Holds(components: Manifest)

  type Hash = Bytes -> string

  /** Slicing the digest to sixteen characters panics if it is shorter. */
  ghost predicate LongDigests(sha: Hash) {
    forall b :: |sha(b)| >= 16
  }

  /** The cached artifact `{name}-{digest[..16]}.wasm`. */
  function ArtifactPath(name: string, digest: string): string
    requires |digest| >= 16
  {
    name + "-" + digest[..16] + ".wasm"
  }

  lemma ArtifactPathInjective(m: string, d: string, n: string, e: string)
    requires |d| >= 16 && |e| >= 16 && ArtifactPath(m, d) == ArtifactPath(n, e)
    ensures m == n && d[..16] == e[..16]
  {
    var p, q := ArtifactPath(m, d), ArtifactPath(n, e);
    assert |p| == |m| + 22 && |q| == |n| + 22;
    assert p[..|m|] == m && q[..|n|] == n;
    assert p[|m| + 1..|m| + 17] == d[..16] && q[|n| + 1..|n| + 17] == e[..16];
  }

  function WithComponent(f: ManifestFile, name: string, spec: ComponentSpec): ManifestFile {
    Holds((if f.Holds? then f.components else map[])[name := spec])
  }

  // ---------- pushes ----------

  /** A push that has passed the signature, digest and owner checks. */
  datatype Push = Push(
    name: string, bytes: Bytes, replicas: nat, targetPeerIds: seq<string>, targetTags: seq<string>, start: bool)

  function SpecOf(sha: Hash, p: Push): ComponentSpec {
    ComponentSpec("cached:" + sha(p.bytes), sha(p.bytes), Some(p.replicas), p.targetPeerIds, p.targetTags, p.start)
  }

  function PathOf(sha: Hash, p: Push): string
    requires |sha(p.bytes)| >= 16
  {
    ArtifactPath(p.name, sha(p.bytes))
  }

  datatype Node = Node(manifest: ManifestFile, artifacts: map<string, Bytes>, live: map<string, DesiredComponent>)

  const FRESH := Node(Missing, map[], map[])

  function AcceptPush(n: Node, sha: Hash, p: Push): Node
    requires |sha(p.bytes)| >= 16
  {
    var path := PathOf(sha, p);
    var artifacts := if path in n.artifacts then n.artifacts else n.artifacts[path := p.bytes];
    if p.start then
      Node(WithComponent(n.manifest, p.name, SpecOf(sha, p)), artifacts,
           n.live[p.name := DesiredComponent(p.name, path, SpecOf(sha, p))])
    else n.(artifacts := artifacts)
  }

  ghost function AcceptPushes(n: Node, sha: Hash, ps: seq<Push>): Node
    requires LongDigests(sha)
  {
    if ps == [] then n
    else
      var p := ps[|ps| - 1];
      assert |sha(p.bytes)| >= 16;
      AcceptPush(AcceptPushes(n, sha, ps[..|ps| - 1]), sha, p)
  }

  /** What a push asks for is what the manifest and the live component say. */
  lemma PushMeans(n: Node, sha: Hash, p: Push)
    requires |sha(p.bytes)| >= 16
    ensures var spec := SpecOf(sha, p);
            && spec.sha256Hex == sha(p.bytes) && spec.source == "cached:" + sha(p.bytes) && spec.start == p.start
            && spec.Want() == (if p.replicas >= 1 then p.replicas else 1)
            && spec.targetPeerIds == p.targetPeerIds && spec.targetTags == p.targetTags
    ensures var m, path := AcceptPush(n, sha, p), p.name + "-" + sha(p.bytes)[..16] + ".wasm";
            && path in m.artifacts && (path !in n.artifacts ==> m.artifacts[path] == p.bytes)
            && (forall other :: other in n.artifacts ==> other in m.artifacts && m.artifacts[other] == n.artifacts[other])
            && (!p.start ==> m.manifest == n.manifest && m.live == n.live)
            && (p.start ==>
                  && m.live.Keys == n.live.Keys + {p.name} && m.live[p.name] == DesiredComponent(p.name, path, SpecOf(sha, p))
                  && m.manifest.Holds? && m.manifest.components[p.name := SpecOf(sha, p)] == m.manifest.components
                  && m.manifest.components.Keys == {p.name} + (if n.manifest.Holds? then n.manifest.components.Keys else {}))
            && (forall name :: name in n.live && name != p.name ==> m.live[name] == n.live[name])
            && (n.manifest.Holds? ==> forall name :: name in n.manifest.components && name != p.name ==>
                  m.manifest.Holds? && name in m.manifest.components && m.manifest.components[name] == n.manifest.components[name])
  {
  }

  // ---------- restoration ----------

  predicate Restorable(artifacts: map<string, Bytes>, sha: Hash, name: string, spec: ComponentSpec,
                       peerId: Option<string>, roles: Option<seq<string>>)
    requires |spec.sha256Hex| >= 16
  {
    && spec.MatchesTarget(peerId, roles)
    && spec.start
    && var path := ArtifactPath(name, spec.sha256Hex);
       path in artifacts && sha(artifacts[path]) == spec.sha256Hex
  }

  predicate LongSpecs(m: Manifest) {
    forall name :: name in m ==> |m[name].sha256Hex| >= 16
  }

  function Restored(m: Manifest, artifacts: map<string, Bytes>, sha: Hash,
                    peerId: Option<string>, roles: Option<seq<string>>): map<string, DesiredComponent>
    requires LongSpecs(m)
  {
    map name | name in m && Restorable(artifacts, sha, name, m[name], peerId, roles) ::
      DesiredComponent(name, ArtifactPath(name, m[name].sha256Hex), m[name])
  }

  lemma RestoredNames(m: Manifest, artifacts: map<string, Bytes>, sha: Hash,
                      peerId: Option<string>, roles: Option<seq<string>>)
    requires LongSpecs(m)
    ensures Supervision.WellNamed(Restored(m, artifacts, sha, peerId, roles))
  {
  }

  /** What restoring asks of an entry of any manifest, whoever wrote it: that it is to
      be started, is meant for this node by its id and by its roles, and has a cached
      file that still hashes to its digest. It then comes back with that file. */
  lemma RestoringAsks(m: Manifest, artifacts: map<string, Bytes>, sha: Hash, id: string, roles: seq<string>, name: string)
    requires LongSpecs(m) && name in m
    ensures var back, spec := Restored(m, artifacts, sha, Some(id), Some(roles)), m[name];
            var path := name + "-" + spec.sha256Hex[..16] + ".wasm";
            && (name in back <==>
                  && spec.start && (spec.targetPeerIds == [] || id in spec.targetPeerIds)
                  && (spec.targetTags == [] || exists role :: role in roles && role in spec.targetTags)
                  && path in artifacts && sha(artifacts[path]) == spec.sha256Hex)
            && (name in back ==> back[name] == DesiredComponent(name, path, spec))
            && back.Keys <= m.Keys
  {
    TargetingMeans(m[name], id, roles);
  }

  /** All entries but those of `todo` have been looked at. */
  ghost predicate RestoredExcept(desired: map<string, DesiredComponent>, todo: set<string>, m: Manifest,
                                 artifacts: map<string, Bytes>, sha: Hash,
                                 peerId: Option<string>, roles: Option<seq<string>>)
    requires LongSpecs(m)
  {
    desired == map name | name in Restored(m, artifacts, sha, peerId, roles) && name !in todo ::
                 Restored(m, artifacts, sha, peerId, roles)[name]
  }

  lemma EntryRestored(desired: map<string, DesiredComponent>, todo: set<string>, name: string, m: Manifest,
                      artifacts: map<string, Bytes>, sha: Hash, peerId: Option<string>, roles: Option<seq<string>>)
    requires LongSpecs(m) && name in todo && todo <= m.Keys
    requires RestoredExcept(desired, todo, m, artifacts, sha, peerId, roles)
    ensures RestoredExcept(
              if Restorable(artifacts, sha, name, m[name], peerId, roles)
              then desired[name := DesiredComponent(name, ArtifactPath(name, m[name].sha256Hex), m[name])]
              else desired,
              todo - {name}, m, artifacts, sha, peerId, roles)
  {
  }

  /** The files of a node. */
  class NodeFiles {
    const sha: Hash
    var manifest: ManifestFile
    var artifacts: map<string, Bytes>

    constructor (sha: Hash)
      ensures this.sha == sha && manifest == Missing && artifacts == map[]
    {
      this.sha, manifest, artifacts := sha, Missing, map[];
    }

    method UpdateManifestWithComponent(name: string, spec: ComponentSpec)
      modifies this`manifest
      ensures manifest == WithComponent(old(manifest), name, spec)
    {
      var components: Manifest := map[];
      if manifest.Holds? {
        components := manifest.components;
      }
      components := components[name := spec];
      manifest := Holds(components);
    }

    method HandlePush(p: Push, supervisor: Supervisor)
      requires supervisor.Valid() && |sha(p.bytes)| >= 16
      modifies this, supervisor`desired, supervisor`counts
      ensures supervisor.Valid()
      ensures Node(manifest, artifacts, supervisor.desired)
              == AcceptPush(Node(old(manifest), old(artifacts), old(supervisor.desired)), sha, p)
      ensures supervisor.State() ==
                if p.start then Supervision.Upsert(old(supervisor.State()), DesiredComponent(p.name, PathOf(sha, p), SpecOf(sha, p)))
                else old(supervisor.State())
    {
      var digest := sha(p.bytes);
      var path := ArtifactPath(p.name, digest);
      if path !in artifacts {
        artifacts := artifacts[path := p.bytes];
      }
      if p.start {
        var spec := ComponentSpec("cached:" + digest, digest, Some(p.replicas), p.targetPeerIds, p.targetTags, p.start);
        supervisor.UpsertComponent(DesiredComponent(p.name, path, spec));
        UpdateManifestWithComponent(p.name, spec);
      }
    }

    /** Nothing restorable leaves the supervisor as it is. */
    method RestoreFromDisk(supervisor: Supervisor, peerId: Option<string>, roles: Option<seq<string>>)
      requires supervisor.Valid() && (manifest.Holds? ==> LongSpecs(manifest.components))
      modifies supervisor`desired, supervisor`counts
      ensures supervisor.Valid()
      ensures var restored := if manifest.Holds? then Restored(manifest.components, artifacts, sha, peerId, roles) else map[];
              supervisor.State() ==
                if restored == map[] then old(supervisor.State())
                else Supervision.SetDesired(old(supervisor.State()), restored)
    {
      if !manifest.Holds? {
        return;
      }
      var desired := CollectRestorable(manifest.components, peerId, roles);
      RestoredNames(manifest.components, artifacts, sha, peerId, roles);
      if desired != map[] {
        supervisor.SetDesiredComponents(desired);
      }
    }

    method CollectRestorable(components: Manifest, peerId: Option<string>, roles: Option<seq<string>>)
      returns (desired: map<string, DesiredComponent>)
      requires LongSpecs(components)
      ensures desired == Restored(components, artifacts, sha, peerId, roles)
    {
      desired := map[];
      var todo := components.Keys;
      while todo != {}
        invariant todo <= components.Keys
        invariant RestoredExcept(desired, todo, components, artifacts, sha, peerId, roles)
        decreases |todo|
      {
        var name :| name in todo;
        EntryRestored(desired, todo, name, components, artifacts, sha, peerId, roles);
        todo := todo - {name};
        var spec := components[name];
        if !spec.MatchesTarget(peerId, roles) || !spec.start {
          continue;
        }
        var path := ArtifactPath(name, spec.sha256Hex);
        if path in artifacts && sha(artifacts[path]) == spec.sha256Hex {
          desired := desired[name := DesiredComponent(name, path, spec)];
        }
      }
    }
  }

  // ---------- what a restart brings back ----------

  /** The manifest and the live components mirror each other, and every started
      component has a file in its place. */
  ghost predicate Mirrors(n: Node, sha: Hash) {
    && !n.manifest.Garbled?
    && (n.manifest.Missing? ==> n.live == map[])
    && (n.manifest.Holds? ==>
          && LongSpecs(n.manifest.components)
          && n.live.Keys == n.manifest.components.Keys
          && forall name :: name in n.live ==>
               var spec := n.manifest.components[name];
               && spec.start
               && n.live[name] == DesiredComponent(name, ArtifactPath(name, spec.sha256Hex), spec)
               && n.live[name].path in n.artifacts)
  }

  lemma {:induction false} PushesMirror(sha: Hash, ps: seq<Push>)
    requires LongDigests(sha)
    ensures Mirrors(AcceptPushes(FRESH, sha, ps), sha)
  {
    if ps != [] {
      PushesMirror(sha, ps[..|ps| - 1]);
      assert |sha(ps[|ps| - 1].bytes)| >= 16;
    }
  }

  /** The last started push of each name is what the manifest holds. */
  ghost predicate LastStarted(ps: seq<Push>, i: nat, name: string) {
    && i < |ps| && ps[i].name == name && ps[i].start
    && forall k :: i < k < |ps| ==> !(ps[k].name == name && ps[k].start)
  }

  lemma {:induction false} ManifestHoldsLast(sha: Hash, ps: seq<Push>, i: nat, name: string)
    requires LongDigests(sha) && LastStarted(ps, i, name)
    ensures var m := AcceptPushes(FRESH, sha, ps).manifest;
            m.Holds? && name in m.components && m.components[name] == SpecOf(sha, ps[i])
    decreases |ps|
  {
    if i < |ps| - 1 {
      ManifestHoldsLast(sha, ps[..|ps| - 1], i, name);
    }
  }

  lemma {:induction false} ManifestHoldsOnlyPushed(sha: Hash, ps: seq<Push>, name: string) returns (i: nat)
    requires LongDigests(sha)
    requires var m := AcceptPushes(FRESH, sha, ps).manifest; m.Holds? && name in m.components
    ensures LastStarted(ps, i, name)
  {
    var last := ps[|ps| - 1];
    if last.name == name && last.start {
      i := |ps| - 1;
    } else {
      i := ManifestHoldsOnlyPushed(sha, ps[..|ps| - 1], name);
      assert forall k :: i < k < |ps| - 1 ==> ps[k] == ps[..|ps| - 1][k];
    }
  }

  ghost function PathAt(ps: seq<Push>, sha: Hash, j: nat): string
    requires LongDigests(sha) && j < |ps|
  {
    assert |sha(ps[j].bytes)| >= 16;
    PathOf(sha, ps[j])
  }

  /** The first push that stages an artifact at a path decides its content. */
  ghost predicate FirstStaged(ps: seq<Push>, sha: Hash, j: nat, path: string)
    requires LongDigests(sha)
  {
    && j < |ps| && PathAt(ps, sha, j) == path
    && forall k :: 0 <= k < j ==> PathAt(ps, sha, k) != path
  }

  lemma {:induction false} NotStaged(sha: Hash, ps: seq<Push>, path: string)
    requires LongDigests(sha) && forall k :: 0 <= k < |ps| ==> PathAt(ps, sha, k) != path
    ensures path !in AcceptPushes(FRESH, sha, ps).artifacts
  {
    if ps != [] {
      var front := ps[..|ps| - 1];
      assert forall k :: 0 <= k < |front| ==> PathAt(front, sha, k) == PathAt(ps, sha, k);
      NotStaged(sha, front, path);
      assert PathAt(ps, sha, |ps| - 1) != path;
    }
  }

  lemma {:induction false} FirstStagedWins(sha: Hash, ps: seq<Push>, j: nat, path: string)
    requires LongDigests(sha) && FirstStaged(ps, sha, j, path)
    ensures var a := AcceptPushes(FRESH, sha, ps).artifacts; path in a && a[path] == ps[j].bytes
    decreases |ps|
  {
    var front := ps[..|ps| - 1];
    if j < |ps| - 1 {
      assert forall k :: 0 <= k <= j ==> PathAt(front, sha, k) == PathAt(ps, sha, k);
      FirstStagedWins(sha, front, j, path);
    } else {
      assert forall k :: 0 <= k < |front| ==> PathAt(front, sha, k) == PathAt(ps, sha, k);
      NotStaged(sha, front, path);
    }
  }

  /** The first push staged where push `i` would be staged. */
  lemma FirstStager(sha: Hash, ps: seq<Push>, i: nat) returns (j: nat)
    requires LongDigests(sha) && i < |ps|
    ensures j <= i && FirstStaged(ps, sha, j, PathAt(ps, sha, i))
  {
    j := 0;
    while PathAt(ps, sha, j) != PathAt(ps, sha, i)
      invariant j <= i && forall k :: 0 <= k < j ==> PathAt(ps, sha, k) != PathAt(ps, sha, i)
      decreases i - j
    {
      j := j + 1;
    }
  }

  /** The i-th push is the name's last started one and targets the node; the j-th
      was the first staged in its place, and had the same digest. */
  ghost predicate Intact(ps: seq<Push>, sha: Hash, name: string, i: nat, j: nat,
                         peerId: Option<string>, roles: Option<seq<string>>)
    requires LongDigests(sha)
  {
    && LastStarted(ps, i, name)
    && FirstStaged(ps, sha, j, PathAt(ps, sha, i))
    && SpecOf(sha, ps[i]).MatchesTarget(peerId, roles)
    && sha(ps[j].bytes) == sha(ps[i].bytes)
  }

  lemma RestoredIff(sha: Hash, ps: seq<Push>, name: string, i: nat, j: nat, peerId: Option<string>, roles: Option<seq<string>>)
    requires LongDigests(sha) && LastStarted(ps, i, name) && FirstStaged(ps, sha, j, PathAt(ps, sha, i))
    ensures var n := AcceptPushes(FRESH, sha, ps);
            && Mirrors(n, sha) && n.manifest.Holds?
            && (name in Restored(n.manifest.components, n.artifacts, sha, peerId, roles)
                <==> Intact(ps, sha, name, i, j, peerId, roles))
  {
    PushesMirror(sha, ps);
    ManifestHoldsLast(sha, ps, i, name);
    FirstStagedWins(sha, ps, j, PathAt(ps, sha, i));
  }

  lemma Unique(sha: Hash, ps: seq<Push>, name: string, i: nat, j: nat, k: nat, l: nat)
    requires LongDigests(sha)
    requires LastStarted(ps, i, name) && FirstStaged(ps, sha, j, PathAt(ps, sha, i))
    requires LastStarted(ps, k, name) && FirstStaged(ps, sha, l, PathAt(ps, sha, k))
    ensures k == i && l == j
  {
  }

  /** After any pushes onto a fresh node and a restart, a name comes back exactly
      when it was started, its last started push targets this node, and the first
      push of that name with the same sixteen leading digits had the same digest. */
  lemma RestoreExact(sha: Hash, ps: seq<Push>, name: string, peerId: Option<string>, roles: Option<seq<string>>)
    requires LongDigests(sha)
    ensures var n := AcceptPushes(FRESH, sha, ps);
            && Mirrors(n, sha)
            && ((n.manifest.Holds? && name in Restored(n.manifest.components, n.artifacts, sha, peerId, roles))
                <==> exists i: nat, j: nat :: Intact(ps, sha, name, i, j, peerId, roles))
  {
    var n := AcceptPushes(FRESH, sha, ps);
    PushesMirror(sha, ps);
    if n.manifest.Holds? && name in n.manifest.components {
      var i := ManifestHoldsOnlyPushed(sha, ps, name);
      var j := FirstStager(sha, ps, i);
      RestoredIff(sha, ps, name, i, j, peerId, roles);
      forall k: nat, l: nat | Intact(ps, sha, name, k, l, peerId, roles)
        ensures k == i && l == j
      {
        Unique(sha, ps, name, i, j, k, l);
      }
    } else {
      forall k: nat, l: nat
        ensures !Intact(ps, sha, name, k, l, peerId, roles)
      {
        if LastStarted(ps, k, name) {
          ManifestHoldsLast(sha, ps, k, name);
        }
      }
    }
  }

  /** No two pushes of one name agree in sixteen leading digits and differ after. */
  ghost predicate NoPrefixClash(sha: Hash, ps: seq<Push>)
    requires LongDigests(sha)
  {
    forall i, j :: 0 <= i < |ps| && 0 <= j < |ps| && PathAt(ps, sha, i) == PathAt(ps, sha, j)
      ==> sha(ps[i].bytes) == sha(ps[j].bytes)
  }

  lemma LiveIsRestored(sha: Hash, ps: seq<Push>, name: string, peerId: Option<string>, roles: Option<seq<string>>)
    requires LongDigests(sha) && NoPrefixClash(sha, ps)
    requires var n := AcceptPushes(FRESH, sha, ps); n.manifest.Holds? && name in n.manifest.components
    ensures var n := AcceptPushes(FRESH, sha, ps);
            && Mirrors(n, sha) && name in n.live
            && (name in Restored(n.manifest.components, n.artifacts, sha, peerId, roles)
                <==> n.live[name].spec.MatchesTarget(peerId, roles))
  {
    PushesMirror(sha, ps);
    var i := ManifestHoldsOnlyPushed(sha, ps, name);
    ManifestHoldsLast(sha, ps, i, name);
    var j := FirstStager(sha, ps, i);
    RestoredIff(sha, ps, name, i, j, peerId, roles);
  }

  /** Then a restart brings back exactly the live components that target the node. */
  lemma RestoreIsLive(sha: Hash, ps: seq<Push>, peerId: Option<string>, roles: Option<seq<string>>)
    requires LongDigests(sha) && NoPrefixClash(sha, ps)
    ensures var n := AcceptPushes(FRESH, sha, ps);
            && Mirrors(n, sha)
            && (n.manifest.Holds? ==>
                  Restored(n.manifest.components, n.artifacts, sha, peerId, roles)
                  == map name | name in n.live && n.live[name].spec.MatchesTarget(peerId, roles) :: n.live[name])
  {
    var n := AcceptPushes(FRESH, sha, ps);
    PushesMirror(sha, ps);
    if n.manifest.Holds? {
      forall name | name in n.live {
        LiveIsRestored(sha, ps, name, peerId, roles);
      }
    }
  }

  // ---------- a clash ----------

  const SIXTEEN := "0123456789abcdef"
  const OLD_BUILD := Push("web", [], 1, [], [], true)
  const NEW_BUILD := Push("web", [1], 1, [], [], true)

  /** Digests that begin alike. */
  const CLASHING: Hash := b => SIXTEEN + if b == [] then "0" else "1"

  lemma TwoPushes(sha: Hash, p: Push, q: Push)
    requires LongDigests(sha)
    ensures |sha(p.bytes)| >= 16 && |sha(q.bytes)| >= 16
    ensures AcceptPushes(FRESH, sha, [p, q]) == AcceptPush(AcceptPush(FRESH, sha, p), sha, q)
  {
    var one, two := [p], [p, q];
    assert one[..|one| - 1] == [] && two[..|two| - 1] == one;
    assert AcceptPushes(FRESH, sha, one) == AcceptPush(FRESH, sha, p);
  }

  /** Two builds of one component whose digests differ only after sixteen digits:
      the second is live when pushed, but does not survive a restart. */
  lemma ClashForgets()
    ensures LongDigests(CLASHING)
    ensures var n := AcceptPushes(FRESH, CLASHING, [OLD_BUILD, NEW_BUILD]);
            && "web" in n.live && n.live["web"].spec == SpecOf(CLASHING, NEW_BUILD)
            && n.manifest.Holds? && LongSpecs(n.manifest.components)
            && Restored(n.manifest.components, n.artifacts, CLASHING, None, None) == map[]
  {
    TwoPushes(CLASHING, OLD_BUILD, NEW_BUILD);
    var n := AcceptPushes(FRESH, CLASHING, [OLD_BUILD, NEW_BUILD]);
    assert CLASHING([])[..16] == SIXTEEN && CLASHING([1])[..16] == SIXTEEN;
    assert n.artifacts == map[ArtifactPath("web", CLASHING([])) := []];
    assert n.manifest.components.Keys == {"web"};
  }
}
