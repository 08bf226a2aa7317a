/** Component specifications (crates/common/src/lib.rs). */
module Components {
  import opened Wrappers

  datatype ComponentSpec = ComponentSpec(
    source: string,
    sha256Hex: string,
    replicas: Option<nat>,
    targetPeerIds: seq<string>,
    targetTags: seq<string>,
    start: bool)
  {
    /** Whether the component is meant for a node with this id and these roles;
        a node that gives no id, or no roles, is not filtered on them. */
    predicate MatchesTarget(peerId: Option<string>, roles: Option<seq<string>>) {
      && (targetPeerIds != [] && peerId.Some? ==> peerId.value in targetPeerIds)
      && (targetTags != [] && roles.Some? ==> exists tag :: tag in targetTags && tag in roles.value)
    }

    /** The number of replicas to keep: at least one, one if unstated. */
    function Want(): (n: nat)
      ensures n >= 1
      ensures replicas.Some? && replicas.value >= 1 ==> n == replicas.value
      ensures n > 1 ==> replicas == Some(n)
    {
      if replicas.None? || replicas.value == 0 then 1 else replicas.value
    }
  }

  /** A string longer than each of the list, hence not in it. */
  function Longer(names: seq<string>): (s: string)
    ensures forall n :: n in names ==> |n| < |s|
  {
    if names == [] then "x" else names[0] + Longer(names[1..])
  }

  /** A component is meant for every node exactly when it names no targets; and a
      node that gives neither id nor roles is never filtered. */
  lemma TargetsAll(spec: ComponentSpec)
    ensures (forall peerId, roles :: spec.MatchesTarget(peerId, roles))
            <==> spec.targetPeerIds == [] && spec.targetTags == []
    ensures spec.MatchesTarget(None, None)
  {
    if spec.targetTags != [] {
      assert !spec.MatchesTarget(None, Some([]));
    }
    if spec.targetPeerIds != [] {
      var stranger := Longer(spec.targetPeerIds);
      assert !spec.MatchesTarget(Some(stranger), None);
    }
  }

  /** Who is refused: a node whose id is known and not among the targets, if there are
      any; and a node whose roles are known and share none with the tags, if there are
      any. One listed id and one common tag are enough. */
  lemma TargetingMeans(spec: ComponentSpec, id: string, roles: seq<string>)
    ensures spec.MatchesTarget(Some(id), None) <==> spec.targetPeerIds == [] || id in spec.targetPeerIds
    ensures spec.MatchesTarget(None, Some(roles)) <==> spec.targetTags == [] || exists role :: role in roles && role in spec.targetTags
    ensures spec.MatchesTarget(Some(id), Some(roles))
            <==> spec.MatchesTarget(Some(id), None) && spec.MatchesTarget(None, Some(roles))
  {
  }

  datatype DesiredComponent = DesiredComponent(name: string, path: string, spec: ComponentSpec)
}
