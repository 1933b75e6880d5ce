/** The partition names the image scripts read from `kpartx -v -a`
    (packages/toolchain-raspios/scripts/createBaseDockerImage.ts and
    createDockerImage.ts): the first match of `/(loop\d+p2)/` is the root
    partition, of `/(loop\d+p1)/` the boot partition, and the loop device is
    `/dev/` plus the root name without its final `p2`. */
module Partitions {
  import opened Common

  /** The number of digits in the run that starts at `i`. */
  function DigitRun(s: string, i: nat): (d: nat)
    ensures i + d <= |s| || (i > |s| && d == 0)
    ensures forall j :: i <= j < i + d ==> IsDigit(s[j])
    ensures i + d < |s| ==> !IsDigit(s[i + d])
    decreases |s| - i
  {
    if i < |s| && IsDigit(s[i]) then 1 + DigitRun(s, i + 1) else 0
  }

  /** `loop`, one or more digits and `p<n>` start at `i`.  The digits are
      matched greedily and a digit is never a `p`, so backtracking cannot
      find a shorter match: the run of digits is the whole run. */
  predicate PartitionAt(s: string, i: nat, n: char) {
    && OccursAt(s, "loop", i)
    && var d := DigitRun(s, i + 4);
       d >= 1 && i + 4 + d + 2 <= |s| && s[i + 4 + d] == 'p' && s[i + 5 + d] == n
  }

  /** The length of the match at `i`. */
  function MatchLength(s: string, i: nat): nat {
    6 + DigitRun(s, i + 4)
  }

  /** The leftmost match at or after `i`. */
  function PartitionFrom(s: string, i: nat, n: char): (k: Option<nat>)
    ensures k.Some? ==> i <= k.value && PartitionAt(s, k.value, n) && forall j :: i <= j < k.value ==> !PartitionAt(s, j, n)
    ensures k.None? ==> forall j :: i <= j ==> !PartitionAt(s, j, n)
    decreases |s| - i
  {
    if i >= |s| then None
    else if PartitionAt(s, i, n) then Some(i)
    else PartitionFrom(s, i + 1, n)
  }

  /** `mapping.match(/(loop\d+p<n>)/)?.[1]` */
  function Partition(mapping: string, n: char): (r: Option<string>)
    ensures r.None? <==> forall j :: !PartitionAt(mapping, j, n)
    ensures r.Some? ==> exists j: nat :: (PartitionAt(mapping, j, n) && OccursAt(mapping, r.value, j)
      && forall i :: 0 <= i < j ==> !PartitionAt(mapping, i, n))
  {
    match PartitionFrom(mapping, 0, n)
    case None => None
    case Some(k) =>
      assert OccursAt(mapping, mapping[k..k + MatchLength(mapping, k)], k);
      Some(mapping[k..k + MatchLength(mapping, k)])
  }

  /** The text a match covers. */
  predicate PartitionName(m: string, n: char) {
    |m| >= 7 && m[..4] == "loop" && AllDigits(m[4..|m| - 2]) && m[|m| - 2..] == ['p', n]
  }

  lemma ShapeAt(s: string, k: nat, n: char)
    requires PartitionAt(s, k, n)
    ensures PartitionName(s[k..k + MatchLength(s, k)], n)
  {
    var d := DigitRun(s, k + 4);
    var m := s[k..k + 6 + d];
    assert m[..4] == s[k..k + 4];
    forall j | 4 <= j < |m| - 2 ensures IsDigit(m[j]) {
      assert m[j] == s[k + j];
    }
    assert m[|m| - 2..] == [s[k + 4 + d], s[k + 5 + d]];
  }

  /** A partition name is `loop`, the digits of the loop device, and `p<n>`. */
  lemma PartitionShape(mapping: string, n: char)
    requires Partition(mapping, n).Some?
    ensures PartitionName(Partition(mapping, n).value, n)
  {
    var k := PartitionFrom(mapping, 0, n).value;
    assert Partition(mapping, n).value == mapping[k..k + MatchLength(mapping, k)];
    ShapeAt(mapping, k, n);
  }

  /** `/dev/${root.slice(0, -"p2".length)}` */
  function LoopDevice(root: string): string {
    "/dev/" + (if |root| >= 2 then root[..|root| - 2] else [])
  }

  /** The loop device is `/dev/loop<digits>`, the device both partitions
      of one mapping belong to. */
  lemma LoopDeviceShape(mapping: string)
    requires Partition(mapping, '2').Some?
    ensures var dev := LoopDevice(Partition(mapping, '2').value);
      StartsWith(dev, "/dev/loop") && |dev| > 9 && AllDigits(dev[9..])
  {
    PartitionShape(mapping, '2');
    LoopOfName(Partition(mapping, '2').value);
  }

  /** The loop device of a root partition name. */
  lemma LoopOfName(m: string)
    requires PartitionName(m, '2')
    ensures var dev := LoopDevice(m);
      StartsWith(dev, "/dev/loop") && |dev| > 9 && AllDigits(dev[9..])
  {
    assert |m[4..|m| - 2]| >= 1 && AllDigits(m[4..|m| - 2]);
    var dev := LoopDevice(m);
    assert dev == "/dev/" + m[..|m| - 2];
    assert dev[..9] == "/dev/" + m[..4];
    assert dev[9..] == m[4..|m| - 2];
  }

  /** The first match wins: a mapping that lists `loop7p2` before
      `loop8p2` has root `loop7p2`. */
  lemma FirstRootWins()
    ensures Partition("loop7p2 loop8p2", '2') == Some("loop7p2")
  {
    var s := "loop7p2 loop8p2";
    assert s[..4] == "loop";
    assert OccursAt(s, "loop", 0);
    assert s[5] == 'p' && !IsDigit(s[5]);
    assert DigitRun(s, 5) == 0;
    assert s[4] == '7';
    assert DigitRun(s, 4) == 1;
    assert PartitionAt(s, 0, '2');
    assert PartitionFrom(s, 0, '2') == Some(0);
    assert s[0..7] == "loop7p2";
  }
}
