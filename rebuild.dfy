/** The rebuild decision shared by packages/toolchain-raspios/scripts/
    createDevelDockerImage.ts and packages/device/scripts/build.ts: the
    labels of the image to (re)build are read with a fallback, and a flag
    `etagCompatible` starts true and is cleared by each check that fails. */
module Rebuild {
  /** What `docker image inspect -f '{{json .Config.Labels}}'` gives for
      the image to build. */
  datatype Inspected = Unavailable | NullLabels | Labels(labels: map<string, string>)

  const NotAvailable := "NOT-AVAILABLE"

  /** `.catch(() => ({ "NOT-AVAILABLE": "1" })) ?? {}`: every label read
      other than `NOT-AVAILABLE` is the image's own, and `NOT-AVAILABLE` is
      there exactly when the inspection failed or the image carries it. */
  function CreatedLabels(i: Inspected): (m: map<string, string>)
    ensures forall k :: k in m && k != NotAvailable ==> i.Labels? && k in i.labels && m[k] == i.labels[k]
    ensures NotAvailable in m <==> i.Unavailable? || (i.Labels? && NotAvailable in i.labels)
    ensures i.Labels? ==> m == i.labels
  {
    match i
    case Unavailable => map[NotAvailable := "1"]
    case NullLabels => map[]
    case Labels(labels) => labels
  }

  /** `labels[key] != etag` is false: the key is present and holds the
      etag (a missing key reads as `undefined`, which differs from every
      string). */
  predicate Holds(labels: map<string, string>, key: string, etag: string) {
    key in labels && labels[key] == etag
  }

  /** The successive values of the flag: once false, never true again. */
  predicate NonIncreasing(h: seq<bool>) {
    forall i, j :: 0 <= i <= j < |h| && h[j] ==> h[i]
  }

  /** One check: `if(flag && fails) flag = false`. */
  function Clear(flag: bool, fails: bool): (r: bool)
    ensures r <==> flag && !fails
  {
    if flag && fails then false else flag
  }

  /** Appending the next value of the flag keeps the history non-increasing. */
  lemma {:induction false} ClearExtends(h: seq<bool>, fails: bool)
    requires |h| > 0 && NonIncreasing(h)
    ensures NonIncreasing(h + [Clear(h[|h| - 1], fails)])
  {
    var h' := h + [Clear(h[|h| - 1], fails)];
    forall i, j | 0 <= i <= j < |h'| && h'[j] ensures h'[i] {
      if j == |h| {
        if i < |h| {
          assert h[|h| - 1];
          assert h'[i] == h[i];
        }
      } else {
        assert h'[j] == h[j] && h'[i] == h[i];
      }
    }
  }
}
