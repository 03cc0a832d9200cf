/** The ownership heuristic: does a security group look like one the AWS Load Balancer
    Controller created? */
module Classifier {
  import opened Records

  const ClusterMarkerKey := "elbv2.k8s.aws/cluster"
  const ResourceMarkerKey := "ingress.k8s.aws/resource"
  const NamePrefix := "k8s-"
  const NameMarker := "alb"

  /** One tag marks the group as controller-owned. */
  predicate MarksOwner(tag: Tag, lbcTagKey: string)
  {
    StartsWith(tag.key, lbcTagKey) || tag.key == ClusterMarkerKey || tag.key == ResourceMarkerKey
  }

  /** The loop over the tags, which returns at the first marking tag. */
  predicate AnyTagMarks(tags: seq<Tag>, lbcTagKey: string)
  {
    tags != [] && (MarksOwner(tags[0], lbcTagKey) || AnyTagMarks(tags[1..], lbcTagKey))
  }

  /** The name rule: a `k8s-` prefix and `alb` anywhere in the lower-cased name. */
  predicate NameMarks(name: string)
  {
    StartsWith(name, NamePrefix) && Contains(ToLower(name), NameMarker)
  }

  /** is_lbc_security_group: the tags are looked at only when the record has a 'Tags' key. */
  predicate IsLbcSecurityGroup(sg: SecurityGroup, lbcTagKey: string)
  {
    (sg.tags.Some? && AnyTagMarks(sg.tags.value, lbcTagKey)) || NameMarks(sg.groupName)
  }

  lemma {:induction false} AnyTagMarksIff(tags: seq<Tag>, lbcTagKey: string)
    ensures AnyTagMarks(tags, lbcTagKey) <==> exists i :: 0 <= i < |tags| && MarksOwner(tags[i], lbcTagKey)
  {
    if tags != [] {
      AnyTagMarksIff(tags[1..], lbcTagKey);
      if exists i :: 0 <= i < |tags| && MarksOwner(tags[i], lbcTagKey) {
        var i :| 0 <= i < |tags| && MarksOwner(tags[i], lbcTagKey);
        if i > 0 {
          assert tags[1..][i - 1] == tags[i];
        }
      }
    }
  }

  /** "alb" occurs at index i when the letters are compared without regard to case. */
  predicate AlbAt(name: string, i: int)
  {
    0 <= i && i + 3 <= |name| &&
    (name[i] == 'a' || name[i] == 'A') &&
    (name[i + 1] == 'l' || name[i + 1] == 'L') &&
    (name[i + 2] == 'b' || name[i + 2] == 'B')
  }

  lemma NameMarksIff(name: string)
    ensures NameMarks(name) <==>
      |name| >= 4 && name[..4] == "k8s-" && exists i :: 0 <= i <= |name| - 3 && AlbAt(name, i)
  {
    var lower := ToLower(name);
    forall i | 0 <= i <= |name| - 3
      ensures OccursAt(lower, NameMarker, i) <==> AlbAt(name, i)
    {
      assert lower[i..i + 3] == [lower[i], lower[i + 1], lower[i + 2]];
    }
    if Contains(lower, NameMarker) {
      var i :| 0 <= i <= |lower| - |NameMarker| && OccursAt(lower, NameMarker, i);
      assert AlbAt(name, i);
    }
    if exists i :: 0 <= i <= |name| - 3 && AlbAt(name, i) {
      var i :| 0 <= i <= |name| - 3 && AlbAt(name, i);
      assert OccursAt(lower, NameMarker, i);
    }
  }

  /** The classifier accepts a group exactly when one of the three rules holds; a record
      without tags is decided by the name rule alone. */
  lemma IsLbcSecurityGroupIff(sg: SecurityGroup, lbcTagKey: string)
    ensures IsLbcSecurityGroup(sg, lbcTagKey) <==>
      (sg.tags.Some? && exists i :: 0 <= i < |sg.tags.value| && StartsWith(sg.tags.value[i].key, lbcTagKey)) ||
      (sg.tags.Some? && exists i :: 0 <= i < |sg.tags.value| && sg.tags.value[i].key in {"elbv2.k8s.aws/cluster", "ingress.k8s.aws/resource"}) ||
      (|sg.groupName| >= 4 && sg.groupName[..4] == "k8s-" &&
         exists i :: 0 <= i <= |sg.groupName| - 3 && AlbAt(sg.groupName, i))
    ensures sg.tags.None? ==> (IsLbcSecurityGroup(sg, lbcTagKey) <==> NameMarks(sg.groupName))
  {
    if sg.tags.Some? {
      AnyTagMarksIff(sg.tags.value, lbcTagKey);
    }
    NameMarksIff(sg.groupName);
  }
}
