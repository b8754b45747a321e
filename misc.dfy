/**
 * `format_bytes` (bin/misc.py lines 18-26): a byte count shown in the
 * largest binary unit that fits, or as a plain count below one KiB.
 */
module Misc {

  /** What is shown: a plain count with ' b', or a ratio with a unit. */
  datatype Shown = Count(bytes: int) | Scaled(value: real, unit: string)

  /** Line 20: the units tried, largest first. */
  const Options: seq<(int, string)> :=
    [(1024 * 1024 * 1024 * 1024, "TiB"), (1024 * 1024 * 1024, "GiB"), (1024 * 1024, "MiB"), (1024, "KiB")]

  /** `1024` to the power `k`. */
  function Pow1024(k: nat): (r: int)
    ensures r >= 1
  {
    if k == 0 then 1 else 1024 * Pow1024(k - 1)
  }

  /**
   * Lines 22-23: the index of the first option whose size is at most
   * `bytes`, or `|opts|` when there is none.
   */
  function FirstFit(bytes: int, opts: seq<(int, string)>): (r: nat)
    ensures r <= |opts|
    ensures r < |opts| ==> opts[r].0 <= bytes
    ensures forall j :: 0 <= j < r ==> bytes < opts[j].0
    decreases |opts|
  {
    if |opts| == 0 then 0
    else if bytes >= opts[0].0 then 0
    else 1 + FirstFit(bytes, opts[1..])
  }

  /** Lines 18-26, with the value kept exact rather than rounded to two decimals. */
  function FormatBytes(bytes: int): (r: Shown)
    ensures r.Count? <==> bytes < 1024
    ensures r.Count? ==> r.bytes == bytes
  {
    var i := FirstFit(bytes, Options);
    if i < |Options| then Scaled(bytes as real / Options[i].0 as real, Options[i].1)
    else Count(bytes)
  }

  /** The name of the unit of size `1024^k`, for `k` from 1 to 4. */
  function UnitName(k: nat): string
    requires 1 <= k <= 4
  {
    ["KiB", "MiB", "GiB", "TiB"][k - 1]
  }

  /**
   * Lines 20-24: for `k` from 1 to 3 the unit `1024^k` is chosen exactly
   * when `1024^k <= bytes < 1024^(k+1)`, and TiB for anything from `1024^4`
   * up; the value shown is `bytes / 1024^k`.
   */
  lemma FormatBand(bytes: int, k: nat)
    requires 1 <= k <= 4 && Pow1024(k) <= bytes && (k < 4 ==> bytes < Pow1024(k + 1))
    ensures FormatBytes(bytes) == Scaled(bytes as real / Pow1024(k) as real, UnitName(k))
  {
    assert Pow1024(1) == 1024;
    assert Pow1024(2) == 1024 * 1024;
    assert Pow1024(3) == 1024 * 1024 * 1024;
    assert Pow1024(4) == 1024 * 1024 * 1024 * 1024;
    assert Options[4 - k].0 == Pow1024(k) && Options[4 - k].1 == UnitName(k);
    assert FirstFit(bytes, Options) == 4 - k;
  }
}
