/** The cloud filter of the infrastructure-as-code page: one selection
    (all clouds, or one of AWS, Azure and GCP) narrows both the stack list
    and the managed-feature list. */
module IacManager {
  import opened Strings
  import opened Seqs

  datatype Cloud = AWS | Azure | GCP

  /** The `selectedCloud` state: 'All' or one cloud. */
  datatype Selection = All | Only(cloud: Cloud)

  /** The name a stack's `cloud` field carries. */
  function CloudName(c: Cloud): string {
    match c
    case AWS => "AWS"
    case Azure => "Azure"
    case GCP => "GCP"
  }

  /** The prefix that marks a feature id as belonging to a cloud. */
  function FeaturePrefix(c: Cloud): string {
    match c
    case AWS => "aws"
    case Azure => "az"
    case GCP => "gcp"
  }

  datatype Stack = Stack(id: string, name: string, tool: string, cloud: string, status: string, region: string)

  datatype Feature = Feature(id: string, category: string, name: string, managedBy: string, status: string)

  function OnCloud(c: Cloud): Stack -> bool {
    (s: Stack) => s.cloud == CloudName(c)
  }

  function ForCloud(c: Cloud): Feature -> bool {
    (f: Feature) => StartsWith(f.id, FeaturePrefix(c))
  }

  /** `filteredStacks` */
  function FilteredStacks(sel: Selection, stacks: seq<Stack>): (r: seq<Stack>)
    ensures sel.All? ==> r == stacks
    ensures sel.Only? ==> forall s :: s in r <==> s in stacks && s.cloud == CloudName(sel.cloud)
    ensures sel.Only? ==> |r| == KeptCount(stacks, OnCloud(sel.cloud))
    ensures IsSubseq(r, stacks)
  {
    if sel.All? then
      IsSubseqRefl(stacks);
      stacks
    else
      FilterCount(stacks, OnCloud(sel.cloud));
      Filter(stacks, OnCloud(sel.cloud))
  }

  /** `filteredFeatures` */
  function FilteredFeatures(sel: Selection, features: seq<Feature>): (r: seq<Feature>)
    ensures sel.All? ==> r == features
    ensures sel.Only? ==> forall f :: f in r <==> f in features && StartsWith(f.id, FeaturePrefix(sel.cloud))
    ensures sel.Only? ==> |r| == KeptCount(features, ForCloud(sel.cloud))
    ensures IsSubseq(r, features)
  {
    if sel.All? then
      IsSubseqRefl(features);
      features
    else
      FilterCount(features, ForCloud(sel.cloud));
      Filter(features, ForCloud(sel.cloud))
  }

  /** The three cloud names differ, so no stack is listed under two clouds. */
  lemma StacksOnOneCloud(c: Cloud, d: Cloud, stacks: seq<Stack>, s: Stack)
    requires c != d
    ensures !(s in FilteredStacks(Only(c), stacks) && s in FilteredStacks(Only(d), stacks))
  {
  }

  /** The three feature prefixes exclude each other, so no feature is listed
      under two clouds. */
  lemma FeaturesOnOneCloud(c: Cloud, d: Cloud, features: seq<Feature>, f: Feature)
    requires c != d
    ensures !(f in FilteredFeatures(Only(c), features) && f in FilteredFeatures(Only(d), features))
  {
    var p, q := FeaturePrefix(c), FeaturePrefix(d);
    assert StartsWith(f.id, p) ==> f.id[..2] == p[..2];
    assert StartsWith(f.id, q) ==> f.id[..2] == q[..2];
    assert p[0] != q[0] || p[1] != q[1] by {
      match c
      case AWS =>
      case Azure =>
      case GCP =>
    }
    assert p[..2][0] == p[0] && p[..2][1] == p[1];
    assert q[..2][0] == q[0] && q[..2][1] == q[1];
  }

  /** Any stack named with one of the three clouds appears under exactly
      that cloud's selection. */
  lemma StackListedUnderItsCloud(c: Cloud, stacks: seq<Stack>, s: Stack)
    requires s in stacks && s.cloud == CloudName(c)
    ensures s in FilteredStacks(Only(c), stacks)
    ensures forall d :: d != c ==> s !in FilteredStacks(Only(d), stacks)
  {
  }
}
