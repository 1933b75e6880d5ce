/** `compareDockerEtagLabels` of packages/build-tools/src/dax.ts: two label
    sets are compared group by group, where a group collects the keys that
    agree once a trailing `_<digits>` is stripped.  A label object is a map
    (the comparison never depends on key order); an array of etags is keyed
    `_0`, `_1`, … */
module Etags {
  import opened Common

  /** One side of the comparison: a label record, optionally narrowed to
      the keys that start with a prefix (which is then sliced off), or a
      plain array of etags. */
  datatype Labels = Record(labels: map<string, string>, prefix: Option<string>) | List(etags: seq<string>)

  /** The key an array element gets: `_${i}`. */
  function ArrayKey(i: nat): (k: string)
    ensures |k| > 1 && k[0] == '_' && AllDigits(k[1..])
  {
    "_" + DecimalString(i)
  }

  lemma ArrayKeyInjective(i: nat, j: nat)
    requires ArrayKey(i) == ArrayKey(j)
    ensures i == j
  {
    assert ArrayKey(i)[1..] == DecimalString(i) && ArrayKey(j)[1..] == DecimalString(j);
  }

  /** Length of the longest run of digits that ends `k`. */
  function TrailingDigits(k: string): (t: nat)
    ensures t <= |k| && AllDigits(k[|k| - t..])
    ensures t < |k| ==> !IsDigit(k[|k| - t - 1])
  {
    if k == [] || !IsDigit(k[|k| - 1]) then 0
    else
      var r := k[..|k| - 1];
      var t := TrailingDigits(r);
      assert k[|k| - t - 1..] == r[|r| - t..] + [k[|k| - 1]];
      DigitsExtend(r[|r| - t..], k[|k| - 1]);
      assert t < |r| ==> k[|k| - t - 2] == r[|r| - t - 1];
      t + 1
  }

  lemma DigitsExtend(s: string, c: char)
    requires AllDigits(s) && IsDigit(c)
    ensures AllDigits(s + [c])
  {
    assert forall i :: 0 <= i < |s| ==> (s + [c])[i] == s[i];
  }

  /** `k.replace(/_\d+$/, "")`: the key with a final `_` plus one or more
      digits removed, or the key itself when it has no such suffix. */
  function GroupKey(k: string): (g: string)
    ensures |g| <= |k| && k[..|g|] == g
    ensures g != k ==> |k| > |g| + 1 && k[|g|] == '_' && AllDigits(k[|g| + 1..])
    ensures g == k ==> forall i :: 0 <= i < |k| - 1 && k[i] == '_' ==> !AllDigits(k[i + 1..])
  {
    var t := TrailingDigits(k);
    if 0 < t < |k| && k[|k| - t - 1] == '_' then
      k[..|k| - t - 1]
    else
      assert forall i :: 0 <= i < |k| - 1 && k[i] == '_' ==> !AllDigits(k[i + 1..]) by {
        forall i | 0 <= i < |k| - 1 && k[i] == '_'
          ensures !AllDigits(k[i + 1..])
        {
          if t == 0 {
            assert !IsDigit(k[i + 1..][|k| - i - 2]);
          } else {
            // the character before the digit run is neither a digit nor `_`
            assert i < |k| - t - 1 && !IsDigit(k[i + 1..][|k| - t - 2 - i]);
          }
        }
      }
      k
  }

  /** Every array key falls in the group with the empty name. */
  lemma ArrayKeyGroup(i: nat)
    ensures GroupKey(ArrayKey(i)) == ""
  {
  }

  /** The keys of one side, the record narrowed by its prefix, as in
      `Object.fromEntries(... .filter(startsWith).map(slice))`. */
  function Etags(side: Labels): (m: map<string, string>)
    ensures side.List? ==> forall i :: 0 <= i < |side.etags| ==> ArrayKey(i) in m && m[ArrayKey(i)] == side.etags[i]
    ensures side.List? ==> forall k :: k in m ==> exists i :: 0 <= i < |side.etags| && k == ArrayKey(i)
    ensures side.Record? && side.prefix.None? ==> m == side.labels
    ensures side.Record? && side.prefix.Some? ==>
      forall k :: k in m <==> side.prefix.value + k in side.labels
    ensures side.Record? && side.prefix.Some? ==>
      forall k :: k in m ==> m[k] == side.labels[side.prefix.value + k]
  {
    match side
    case List(etags) => ListEtags(etags)
    case Record(labels, None) => labels
    case Record(labels, Some(p)) => PrefixEtags(labels, p)
  }

  /** An array side: each etag under its index's key. */
  function ListEtags(etags: seq<string>): (m: map<string, string>)
    ensures forall i :: 0 <= i < |etags| ==> ArrayKey(i) in m && m[ArrayKey(i)] == etags[i]
    ensures forall k :: k in m ==> exists i :: 0 <= i < |etags| && k == ArrayKey(i)
  {
    assert forall i, j :: 0 <= i < |etags| && 0 <= j < |etags| && ArrayKey(i) == ArrayKey(j) ==> i == j by {
      forall i, j | 0 <= i < |etags| && 0 <= j < |etags| && ArrayKey(i) == ArrayKey(j) ensures i == j {
        ArrayKeyInjective(i, j);
      }
    }
    map i | 0 <= i < |etags| :: ArrayKey(i) := etags[i]
  }

  /** A record side with a prefix: the labels that start with it, the
      prefix cut off. */
  function PrefixEtags(labels: map<string, string>, p: string): (m: map<string, string>)
    ensures forall k :: k in m <==> p + k in labels
    ensures forall k :: k in m ==> m[k] == labels[p + k]
  {
    var sliced := set k | k in labels && StartsWith(k, p) :: k[|p|..];
    assert forall k :: p + k in labels ==> k in sliced by {
      forall k | p + k in labels ensures k in sliced {
        assert (p + k)[..|p|] == p && (p + k)[|p|..] == k;
      }
    }
    assert forall k :: k in sliced ==> p + k in labels by {
      forall k | k in sliced ensures p + k in labels {
        var full :| full in labels && StartsWith(full, p) && k == full[|p|..];
        assert p + k == full;
      }
    }
    map k | k in sliced :: labels[p + k]
  }

  function Group(keys: set<string>, g: string): set<string> {
    set k | k in keys && GroupKey(k) == g
  }

  /** `aks.length == 0 || aks.some(ak => cks.some(ck => check[ck] == against[ak]))` */
  predicate GroupAgrees(check: map<string, string>, against: map<string, string>, g: string) {
    var aks := Group(against.Keys, g);
    var cks := Group(check.Keys, g);
    aks == {} || exists ak, ck :: ak in aks && ck in cks && check[ck] == against[ak]
  }

  /** The groups of the union of both sides' keys, each required to agree. */
  function CompareEtags(check: map<string, string>, against: map<string, string>): bool {
    var groups := set k | k in check.Keys + against.Keys :: GroupKey(k);
    forall g :: g in groups ==> GroupAgrees(check, against, g)
  }

  /** `compareDockerEtagLabels({ check, checkPrefix, against, againstPrefix })` */
  function CompareDockerEtagLabels(check: Labels, against: Labels): bool {
    CompareEtags(Etags(check), Etags(against))
  }

  /** Some `against` value equals the value of a `check` key of group `g`. */
  predicate SharedIn(check: map<string, string>, against: map<string, string>, g: string) {
    exists ak, ck :: ak in against && ck in check && GroupKey(ck) == g && check[ck] == against[ak]
  }

  /** When every `against` key lies in one group, only that group can
      disagree: the comparison holds exactly when `against` is empty or one
      of its values is shared by a `check` key of that group. */
  lemma {:induction false} AgainstInOneGroup(check: map<string, string>, against: map<string, string>, g0: string)
    requires forall k :: k in against ==> GroupKey(k) == g0
    ensures CompareEtags(check, against) <==> against == map[] || SharedIn(check, against, g0)
  {
    var groups := set k | k in check.Keys + against.Keys :: GroupKey(k);
    forall g | g in groups && g != g0 ensures GroupAgrees(check, against, g) {
      assert Group(against.Keys, g) == {};
    }
    if against != map[] {
      var k :| k in against;
      assert g0 in groups;
      assert k in Group(against.Keys, g0);
      if GroupAgrees(check, against, g0) {
        var ak, ck :| ak in Group(against.Keys, g0) && ck in Group(check.Keys, g0) && check[ck] == against[ak];
        assert SharedIn(check, against, g0);
      }
      if SharedIn(check, against, g0) {
        var ak, ck :| ak in against && ck in check && GroupKey(ck) == g0 && check[ck] == against[ak];
        assert ak in Group(against.Keys, g0) && ck in Group(check.Keys, g0);
        assert GroupAgrees(check, against, g0);
      }
    } else {
      forall g | g in groups ensures GroupAgrees(check, against, g) {
        assert Group(against.Keys, g) == {};
      }
    }
  }

  lemma ArrayKeysInOneGroup(etags: seq<string>)
    ensures forall k :: k in Etags(List(etags)) ==> GroupKey(k) == ""
    ensures etags != [] ==> Etags(List(etags)) != map[]
  {
    var a := Etags(List(etags));
    forall k | k in a ensures GroupKey(k) == "" {
      var i :| 0 <= i < |etags| && k == ArrayKey(i);
      ArrayKeyGroup(i);
    }
    if etags != [] {
      assert ArrayKey(0) in a;
    }
  }

  lemma {:induction false} ArraysShare(check: seq<string>, against: seq<string>)
    ensures SharedIn(Etags(List(check)), Etags(List(against)), "") <==>
      exists i, j :: 0 <= i < |check| && 0 <= j < |against| && check[i] == against[j]
  {
    var c := Etags(List(check));
    var a := Etags(List(against));
    if SharedIn(c, a, "") {
      var ak, ck :| ak in a && ck in c && GroupKey(ck) == "" && c[ck] == a[ak];
      var j := ListIndexOf(against, ak);
      var i := ListIndexOf(check, ck);
      assert check[i] == against[j];
    }
    if exists i, j :: 0 <= i < |check| && 0 <= j < |against| && check[i] == against[j] {
      var i, j :| 0 <= i < |check| && 0 <= j < |against| && check[i] == against[j];
      ArrayKeyGroup(i);
      ListKeyIn(check, i);
      ListKeyIn(against, j);
      SharedBy(c, a, ArrayKey(i), ArrayKey(j), "");
    }
  }

  /** Two arrays: every index lands in the one group `""`, so the arrays
      agree exactly when `against` is empty or some etag appears in both. */
  lemma {:induction false} CompareArrays(check: seq<string>, against: seq<string>)
    ensures CompareDockerEtagLabels(List(check), List(against)) <==>
      against == [] || exists i, j :: 0 <= i < |check| && 0 <= j < |against| && check[i] == against[j]
  {
    ArrayKeysInOneGroup(against);
    AgainstInOneGroup(Etags(List(check)), Etags(List(against)), "");
    ArraysShare(check, against);
  }

  lemma RecordSharesOnly(labels: map<string, string>, p: string, against: seq<string>)
    requires SharedIn(Etags(Record(labels, Some(p))), Etags(List(against)), "")
    ensures exists k :: k in labels && StartsWith(k, p) && GroupKey(k[|p|..]) == "" && labels[k] in against
  {
    var c := Etags(Record(labels, Some(p)));
    var a := Etags(List(against));
    var ak, ck :| ak in a && ck in c && GroupKey(ck) == "" && c[ck] == a[ak];
    RecordKeyOf(labels, p, ck);
    var j := ListIndexOf(against, ak);
    var k := p + ck;
    assert k in labels && StartsWith(k, p) && GroupKey(k[|p|..]) == "" && labels[k] in against;
  }

  /** A key of a prefixed record comes from the label with the prefix put back. */
  lemma RecordKeyOf(labels: map<string, string>, p: string, ck: string)
    requires ck in Etags(Record(labels, Some(p)))
    ensures p + ck in labels && Etags(Record(labels, Some(p)))[ck] == labels[p + ck]
    ensures StartsWith(p + ck, p) && (p + ck)[|p|..] == ck
  {
    assert (p + ck)[..|p|] == p;
  }

  /** Every value of an array side is one of the array's etags. */
  lemma ListIndexOf(against: seq<string>, ak: string) returns (j: nat)
    requires ak in Etags(List(against))
    ensures j < |against| && Etags(List(against))[ak] == against[j]
  {
    j :| 0 <= j < |against| && ak == ArrayKey(j);
  }

  lemma RecordSharesAll(labels: map<string, string>, p: string, against: seq<string>, k: string)
    requires k in labels && StartsWith(k, p) && GroupKey(k[|p|..]) == "" && labels[k] in against
    ensures SharedIn(Etags(Record(labels, Some(p))), Etags(List(against)), "")
  {
    var j :| 0 <= j < |against| && against[j] == labels[k];
    PrefixKeyIn(labels, p, k);
    ListKeyIn(against, j);
    SharedBy(Etags(Record(labels, Some(p))), Etags(List(against)), k[|p|..], ArrayKey(j), "");
  }

  lemma PrefixKeyIn(labels: map<string, string>, p: string, k: string)
    requires k in labels && StartsWith(k, p)
    ensures k[|p|..] in Etags(Record(labels, Some(p))) && Etags(Record(labels, Some(p)))[k[|p|..]] == labels[k]
  {
    assert p + k[|p|..] == k by {
      assert k == k[..|p|] + k[|p|..];
    }
  }

  lemma ListKeyIn(against: seq<string>, j: nat)
    requires j < |against|
    ensures ArrayKey(j) in Etags(List(against)) && Etags(List(against))[ArrayKey(j)] == against[j]
  {
  }

  lemma SharedBy(check: map<string, string>, against: map<string, string>, ck: string, ak: string, g: string)
    requires ak in against && ck in check && GroupKey(ck) == g && check[ck] == against[ak]
    ensures SharedIn(check, against, g)
  {
  }

  lemma RecordShares(labels: map<string, string>, p: string, against: seq<string>)
    ensures SharedIn(Etags(Record(labels, Some(p))), Etags(List(against)), "") <==>
      exists k :: k in labels && StartsWith(k, p) && GroupKey(k[|p|..]) == "" && labels[k] in against
  {
    if SharedIn(Etags(Record(labels, Some(p))), Etags(List(against)), "") {
      RecordSharesOnly(labels, p, against);
    }
    if k :| k in labels && StartsWith(k, p) && GroupKey(k[|p|..]) == "" && labels[k] in against {
      RecordSharesAll(labels, p, against, k);
    }
  }

  /** A prefixed record against an array (how a base image's
      `ETAG_IMAGE*` labels meet the etags collected so far): they agree
      exactly when the array is empty or some label whose key, with the
      prefix cut off, is empty or `_<digits>` holds one of the etags. */
  lemma {:induction false} CompareRecordWithArray(labels: map<string, string>, p: string, against: seq<string>)
    ensures CompareDockerEtagLabels(Record(labels, Some(p)), List(against)) <==>
      against == [] || exists k :: k in labels && StartsWith(k, p) && GroupKey(k[|p|..]) == "" && labels[k] in against
  {
    ArrayKeysInOneGroup(against);
    AgainstInOneGroup(Etags(Record(labels, Some(p))), Etags(List(against)), "");
    RecordShares(labels, p, against);
  }
}
