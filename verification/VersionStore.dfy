/** The in-memory registry of manifests and the movable pointers over them. */
module VersionStore {
  import opened Order
  import opened Versions

  class VersionStore {
    var commits: map<nat, Manifest>
    var head: Option<nat>
    var branches: map<string, nat>
    var tags: map<string, nat>
    var nextVersion: nat

    function State(): Store
      reads this
    {
      Store(commits, head, branches, tags, nextVersion)
    }

    constructor FromStore(s: Store)
      ensures State() == s
    {
      commits, head, branches, tags, nextVersion := s.commits, s.head, s.branches, s.tags, s.nextVersion;
    }

    method Commit(tag: Option<string>, segments: seq<SegmentRef>, deletions: set<nat>) returns (version: nat)
      modifies this
      ensures State() == Versions.Commit(old(State()), tag, segments, deletions)
      ensures version == old(nextVersion)
    {
      version := nextVersion;
      nextVersion := nextVersion + 1;
      commits := commits[version := Manifest(version, head, segments, deletions)];
      head := Some(version);
      if tag.Some? {
        tags := tags[tag.value := version];
      }
    }

    method SetTag(name: string, version: nat) returns (ok: bool)
      modifies this`tags
      ensures ok == (version in commits)
      ensures tags == if ok then old(tags)[name := version] else old(tags)
      ensures PointersResolve(old(State())) ==> PointersResolve(State())
    {
      ok := version in commits;
      if ok {
        tags := tags[name := version];
      }
    }

    method SetBranch(name: string, version: nat) returns (ok: bool)
      modifies this`branches
      ensures ok == (version in commits)
      ensures branches == if ok then old(branches)[name := version] else old(branches)
      ensures PointersResolve(old(State())) ==> PointersResolve(State())
    {
      ok := version in commits;
      if ok {
        branches := branches[name := version];
      }
    }

    /** The live id set of a version: segment ranges minus its deletions. */
    static method LiveIds(m: Manifest) returns (live: set<nat>)
      ensures forall id :: id in live <==> RangeLive(m, id)
    {
      live := {};
      var i := 0;
      while i < |m.segments|
        invariant 0 <= i <= |m.segments|
        invariant forall id :: id in live <==> InRanges(m.segments[..i], id) && id !in m.deletions
      {
        var seg := m.segments[i];
        ghost var before := live;
        var id := seg.lo;
        while id <= seg.hi
          invariant seg.lo <= id && (id <= seg.hi + 1 || id == seg.lo)
          invariant forall x :: x in live <==> x in before || (seg.lo <= x < id && x !in m.deletions)
        {
          if id !in m.deletions {
            live := live + {id};
          }
          id := id + 1;
        }
        RangesSnoc(m.segments, i);
        i := i + 1;
      }
      assert m.segments[..i] == m.segments;
    }

    /** Diffs two versions' live id sets; `None` when either does not exist. */
    method Diff(from: nat, to: nat) returns (diff: Option<Diff>)
      ensures diff.Some? <==> from in commits && to in commits
      ensures diff.Some? ==>
                DiffOf(diff.value, commits[from], commits[to])
    {
      if from !in commits || to !in commits {
        return None;
      }
      var la := LiveIds(commits[from]);
      var lb := LiveIds(commits[to]);
      AscendFacts(lb - la);
      AscendFacts(la - lb);
      diff := Some(Versions.Diff(Ascend(lb - la), Ascend(la - lb)));
    }

    method RetainedVersions(rules: Retention) returns (retained: set<nat>)
      ensures retained == Retained(State(), rules)
    {
      retained := {};
      if head.Some? {
        retained := retained + {head.value};
      }
      if rules.keepBranchHeads {
        retained := retained + branches.Values;
      }
      if rules.keepTagged {
        retained := retained + tags.Values;
      }
      if rules.keepLast.Some? {
        var left := commits.Keys;
        var k := rules.keepLast.value;
        ghost var before := retained;
        while k > 0 && left != {}
          invariant 0 <= k && retained + Latest(left, k) == before + Latest(commits.Keys, rules.keepLast.value)
        {
          var v := MaxOf(left);
          retained, left := retained + {v}, left - {v};
          k := k - 1;
        }
        assert Latest(left, k) == {};
      } else {
        retained := retained + commits.Keys;
      }
    }

    method PlanGc(rules: Retention) returns (report: GcLists)
      ensures report == Listed(Versions.PlanGc(State(), rules))
    {
      var retained := RetainedVersions(rules);
      var removed := set v | v in commits && v !in retained;
      assert removed == commits.Keys - retained;
      var kept := CollectSegments(retained);
      var dropped := CollectSegments(removed);
      report := GcLists(Ascend(removed), Ascend(dropped - kept));
    }

    /** The loop that unions the segment ids of some versions. */
    method CollectSegments(versions: set<nat>) returns (ids: set<nat>)
      ensures ids == SegmentsOf(State(), versions)
    {
      ids := {};
      var left := versions;
      while left != {}
        invariant left <= versions && ids == SegmentsOf(State(), versions - left)
        decreases left
      {
        var v :| v in left;
        left := left - {v};
        assert versions - left == (versions - left - {v}) + {v};
        if v in commits {
          ids := ids + SegmentIds(commits[v]);
        }
      }
      assert versions - left == versions;
    }

    method Gc(rules: Retention) returns (report: GcLists)
      modifies this`commits
      ensures State() == Versions.Gc(old(State()), rules)
      ensures report == Listed(Versions.PlanGc(old(State()), rules))
    {
      hide Versions.PlanGc, Ascend;
      report := PlanGc(rules);
      AscendFacts(Versions.PlanGc(State(), rules).removedVersions);
      RemoveVersions(report.removedVersions);
    }

    /** The loop that drops manifests. */
    method RemoveVersions(versions: seq<nat>)
      modifies this`commits
      ensures commits == old(commits) - set v | v in versions
    {
      ghost var before := commits;
      var i := 0;
      while i < |versions|
        invariant 0 <= i <= |versions|
        invariant commits == before - set v | v in versions[..i]
      {
        assert versions[..i + 1] == versions[..i] + [versions[i]];
        commits := commits - {versions[i]};
        i := i + 1;
      }
      assert versions[..i] == versions;
    }
  }

  lemma {:induction false} RangesSnoc(segments: seq<SegmentRef>, i: nat)
    requires i < |segments|
    ensures forall id: nat :: InRanges(segments[..i + 1], id) <==>
              InRanges(segments[..i], id) || segments[i].lo <= id <= segments[i].hi
  {
    var s := segments[..i + 1];
    forall id: nat | segments[i].lo <= id <= segments[i].hi ensures InRanges(s, id) {
      assert s[i] == segments[i];
    }
    forall id: nat | InRanges(segments[..i], id) ensures InRanges(s, id) {
      var j :| 0 <= j < i && segments[..i][j].lo <= id <= segments[..i][j].hi;
      assert s[j] == segments[..i][j];
    }
    forall id: nat | InRanges(s, id) && !(segments[i].lo <= id <= segments[i].hi) ensures InRanges(segments[..i], id) {
      var j :| 0 <= j < |s| && s[j].lo <= id <= s[j].hi;
      assert segments[..i][j] == s[j];
    }
  }
}
