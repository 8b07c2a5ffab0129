/**
 * The artifact lister (`get_artifacts`): from the matches of
 * `(\d+)-([\da-f]+)` in the artifact server's page, one artifact per build
 * number, the first match of each number winning, in order of first
 * appearance. The page fetch and the regular expression are outside the
 * model: the input is the list of matches, or nothing when the fetch or the
 * body read failed.
 */
module Artifacts {
  import opened Numbers

  /** One regex match: the digit run and the hexadecimal hash after the dash. */
  datatype Capture = Capture(digits: string, hex: string)

  datatype Artifact = Artifact(url: string, num: U16, hash: string)

  /** The list, or the panic of `unwrap` on a digit run that does not fit in a `u16`. */
  datatype Listing = Listed(artifacts: seq<Artifact>) | Panicked

  predicate IsHex(c: char) { IsDigit(c) || 'a' <= c <= 'f' }

  /** What the regular expression delivers (its `\d` taken as ASCII digits). */
  predicate IsMatch(c: Capture)
  {
    && |c.digits| > 0 && AllDigits(c.digits)
    && |c.hex| > 0 && forall i :: 0 <= i < |c.hex| ==> IsHex(c.hex[i])
  }

  predicate Fits(c: Capture) { ParseU16(c.digits).Some? }

  function NumOf(c: Capture): U16
    requires Fits(c)
  {
    ParseU16(c.digits).value
  }

  /** The artifact a match describes: the URL is built from the digit text
      as matched, not from the parsed number. */
  function Build(base: string, c: Capture): Artifact
    requires Fits(c)
  {
    Artifact(base + c.digits + "-" + c.hex + "/", NumOf(c), c.hex)
  }

  function Nums(arts: seq<Artifact>): seq<U16>
  {
    seq(|arts|, i requires 0 <= i < |arts| => arts[i].num)
  }

  predicate AllFit(caps: seq<Capture>)
  {
    forall i :: 0 <= i < |caps| ==> Fits(caps[i])
  }

  /** The artifacts the loop collects from `caps`, left to right. A match
      whose number does not fit is passed over: the program never gets past
      one, as it panics there. */
  function Dedupe(base: string, caps: seq<Capture>): seq<Artifact>
  {
    if |caps| == 0 then []
    else
      var prev := Dedupe(base, caps[..|caps| - 1]);
      var c := caps[|caps| - 1];
      if !Fits(c) || NumOf(c) in Nums(prev) then prev else prev + [Build(base, c)]
  }

  /** What the loop of `get_artifacts` does from match `i` on, with the list
      `versions` collected so far: stop with the list at the end, panic on a
      number that does not fit, and otherwise append the match unless its
      number is already listed. */
  function CollectFrom(base: string, caps: seq<Capture>, i: nat, versions: seq<Artifact>): Listing
    requires i <= |caps|
    decreases |caps| - i
  {
    if i == |caps| then Listed(versions)
    else match ParseU16(caps[i].digits)
      case None => Panicked
      case Some(num) =>
        CollectFrom(base, caps, i + 1,
                    if num in Nums(versions) then versions else versions + [Build(base, caps[i])])
  }

  /** `get_artifacts` after the fetch: `page` is the list of matches, or
      `None` when the request or the body read failed. */
  method GetArtifacts(base: string, page: Option<seq<Capture>>) returns (listing: Listing)
    ensures page.None? ==> listing == Listed([])
    ensures page.Some? ==> listing == CollectFrom(base, page.value, 0, [])
    ensures page.Some? ==> (listing.Panicked? <==> !AllFit(page.value))
    ensures page.Some? && listing.Listed? ==> listing.artifacts == Dedupe(base, page.value)
  {
    if page.None? {
      return Listed([]);
    }
    var caps := page.value;
    var versions: seq<Artifact> := [];
    var numsAlready: seq<U16> := [];
    for i := 0 to |caps|
      invariant CollectFrom(base, caps, i, versions) == CollectFrom(base, caps, 0, [])
      invariant numsAlready == Nums(versions)
    {
      var capture := caps[i];
      var parsed := ParseU16(capture.digits);
      if parsed.None? {
        CollectIsDedupe(base, caps);
        return Panicked;
      }
      var num := parsed.value;
      if num !in numsAlready {
        numsAlready := numsAlready + [num];
        NumsSnoc(versions, Build(base, capture));
        versions := versions + [Build(base, capture)];
      }
    }
    CollectIsDedupe(base, caps);
    return Listed(versions);
  }

  /** The loop lists `Dedupe` of the matches, and panics exactly when some
      digit run does not fit in a `u16`. */
  lemma {:induction false} CollectIsDedupe(base: string, caps: seq<Capture>)
    ensures CollectFrom(base, caps, 0, []) ==
            if AllFit(caps) then Listed(Dedupe(base, caps)) else Panicked
  {
    CollectRest(base, caps, 0);
  }

  lemma {:induction false} CollectRest(base: string, caps: seq<Capture>, i: nat)
    requires i <= |caps| && AllFit(caps[..i])
    ensures CollectFrom(base, caps, i, Dedupe(base, caps[..i])) ==
            if AllFit(caps) then Listed(Dedupe(base, caps)) else Panicked
    decreases |caps| - i
  {
    if i == |caps| {
      assert caps[..i] == caps;
    } else if !Fits(caps[i]) {
      assert !AllFit(caps);
    } else {
      CollectStep(base, caps, i, Dedupe(base, caps[..i]));
      DedupeStep(base, caps, i);
      AllFitSnoc(caps, i);
      CollectRest(base, caps, i + 1);
    }
  }

  /** One turn of the loop on a fitting match. */
  lemma {:induction false} CollectStep(base: string, caps: seq<Capture>, i: nat, versions: seq<Artifact>)
    requires i < |caps| && Fits(caps[i])
    ensures CollectFrom(base, caps, i, versions) ==
            CollectFrom(base, caps, i + 1,
                        if NumOf(caps[i]) in Nums(versions) then versions else versions + [Build(base, caps[i])])
  {
  }

  lemma {:induction false} AllFitSnoc(caps: seq<Capture>, i: nat)
    requires i < |caps| && AllFit(caps[..i]) && Fits(caps[i])
    ensures AllFit(caps[..i + 1])
  {
    assert forall j :: 0 <= j < i ==> caps[..i + 1][j] == caps[..i][j];
  }

  lemma {:induction false} DedupeStep(base: string, caps: seq<Capture>, i: nat)
    requires i < |caps|
    ensures Dedupe(base, caps[..i + 1]) ==
            var prev, c := Dedupe(base, caps[..i]), caps[i];
            if !Fits(c) || NumOf(c) in Nums(prev) then prev else prev + [Build(base, c)]
  {
    assert caps[..i + 1][..i] == caps[..i];
  }

  lemma {:induction false} NumsSnoc(arts: seq<Artifact>, a: Artifact)
    ensures Nums(arts + [a]) == Nums(arts) + [a.num]
  {
  }

  // ---------------------------------------------------------------------
  // What the listing is.

  /** Match `k` is the first with its build number. */
  predicate IsFirst(caps: seq<Capture>, k: nat)
    requires AllFit(caps) && k < |caps|
  {
    forall j :: 0 <= j < k ==> NumOf(caps[j]) != NumOf(caps[k])
  }

  /** The indices of the first match of each number, in increasing order. */
  ghost function Firsts(caps: seq<Capture>): seq<nat>
    requires AllFit(caps)
  {
    if |caps| == 0 then []
    else Firsts(caps[..|caps| - 1]) + (if IsFirst(caps, |caps| - 1) then [|caps| - 1] else [])
  }

  /** `Firsts` holds indices of `caps`, in strictly increasing order. */
  lemma {:induction false} FirstsIncrease(caps: seq<Capture>)
    requires AllFit(caps)
    ensures forall j :: 0 <= j < |Firsts(caps)| ==> Firsts(caps)[j] < |caps|
    ensures forall j1, j2 :: 0 <= j1 < j2 < |Firsts(caps)| ==> Firsts(caps)[j1] < Firsts(caps)[j2]
  {
    if |caps| > 0 {
      FirstsIncrease(caps[..|caps| - 1]);
    }
  }

  /** `Firsts` lists exactly the first occurrences, in increasing order. */
  lemma {:induction false} FirstsAreFirstOccurrences(caps: seq<Capture>)
    requires AllFit(caps)
    ensures forall j :: 0 <= j < |Firsts(caps)| ==> Firsts(caps)[j] < |caps|
    ensures forall j1, j2 :: 0 <= j1 < j2 < |Firsts(caps)| ==> Firsts(caps)[j1] < Firsts(caps)[j2]
    ensures forall k :: 0 <= k < |caps| ==> (k in Firsts(caps) <==> IsFirst(caps, k))
  {
    FirstsIncrease(caps);
    if |caps| > 0 {
      var n := |caps|;
      var front := caps[..n - 1];
      FirstsAreFirstOccurrences(front);
      forall k | 0 <= k < n - 1 ensures IsFirst(front, k) <==> IsFirst(caps, k) {
        assert forall j :: 0 <= j <= k ==> front[j] == caps[j];
      }
    }
  }

  /** Every build number on the page is among the listed numbers. */
  lemma {:induction false} DedupeCoversAll(base: string, caps: seq<Capture>)
    requires AllFit(caps)
    ensures forall k :: 0 <= k < |caps| ==> NumOf(caps[k]) in Nums(Dedupe(base, caps))
  {
    if |caps| > 0 {
      var n := |caps|;
      var front := caps[..n - 1];
      DedupeCoversAll(base, front);
      var prev := Dedupe(base, front);
      assert forall k :: 0 <= k < n - 1 ==> front[k] == caps[k];
      if NumOf(caps[n - 1]) !in Nums(prev) {
        assert Nums(Dedupe(base, caps)) == Nums(prev) + [NumOf(caps[n - 1])];
      }
    }
  }

  predicate DistinctNums(arts: seq<Artifact>)
  {
    forall j1, j2 :: 0 <= j1 < j2 < |arts| ==> arts[j1].num != arts[j2].num
  }

  /** The listed build numbers are pairwise distinct. */
  lemma {:induction false} DedupeDistinct(base: string, caps: seq<Capture>)
    requires AllFit(caps)
    ensures DistinctNums(Dedupe(base, caps))
  {
    if |caps| > 0 {
      var front := caps[..|caps| - 1];
      DedupeDistinct(base, front);
      var prev := Dedupe(base, front);
      var c := caps[|caps| - 1];
      if NumOf(c) !in Nums(prev) {
        var out := prev + [Build(base, c)];
        assert Dedupe(base, caps) == out;
        forall j1, j2 | 0 <= j1 < j2 < |out| ensures out[j1].num != out[j2].num {
          assert out[j1] == prev[j1];
          if j2 == |prev| {
            assert Nums(prev)[j1] == prev[j1].num;
          } else {
            assert out[j2] == prev[j2];
          }
        }
      }
    }
  }

  /** The build numbers of the matches, in page order. */
  function PageNums(caps: seq<Capture>): seq<U16>
    requires AllFit(caps)
  {
    seq(|caps|, k requires 0 <= k < |caps| => NumOf(caps[k]))
  }

  /** Every listed build number is the number of some match on the page. */
  lemma {:induction false} ListedNumsOccur(base: string, caps: seq<Capture>)
    requires AllFit(caps)
    ensures forall x :: x in Nums(Dedupe(base, caps)) ==> x in PageNums(caps)
  {
    if |caps| > 0 {
      var front := caps[..|caps| - 1];
      ListedNumsOccur(base, front);
      forall x | x in PageNums(front) ensures x in PageNums(caps) {
        var k :| 0 <= k < |front| && PageNums(front)[k] == x;
        assert PageNums(caps)[k] == x;
      }
      var prev, c := Dedupe(base, front), caps[|caps| - 1];
      if NumOf(c) !in Nums(prev) {
        NumsSnoc(prev, Build(base, c));
        assert PageNums(caps)[|caps| - 1] == NumOf(c);
      }
    }
  }

  /** The last match is the first with its number exactly when that number
      is not listed yet. */
  lemma {:induction false} LastIsFirstIff(base: string, caps: seq<Capture>)
    requires AllFit(caps) && |caps| > 0
    ensures IsFirst(caps, |caps| - 1) <==> NumOf(caps[|caps| - 1]) !in Nums(Dedupe(base, caps[..|caps| - 1]))
  {
    var n, front := |caps|, caps[..|caps| - 1];
    var c := caps[n - 1];
    var prev := Dedupe(base, front);
    if NumOf(c) in Nums(prev) {
      ListedNumsOccur(base, front);
      var k :| 0 <= k < |front| && PageNums(front)[k] == NumOf(c);
      assert NumOf(caps[k]) == NumOf(c);
    } else {
      DedupeCoversAll(base, front);
      forall k | 0 <= k < n - 1 ensures NumOf(caps[k]) != NumOf(c) {
        assert NumOf(front[k]) in Nums(prev);
      }
    }
  }

  /** The listing is the first occurrence of each build number, in the order
      those occurrences appear on the page, each built from its own match. */
  lemma {:induction false} DedupeIsFirstOccurrences(base: string, caps: seq<Capture>)
    requires AllFit(caps)
    ensures var out, fs := Dedupe(base, caps), Firsts(caps);
            |out| == |fs| &&
            forall j :: 0 <= j < |fs| ==> fs[j] < |caps| && out[j] == Build(base, caps[fs[j]])
  {
    if |caps| > 0 {
      var n := |caps|;
      var front := caps[..n - 1];
      DedupeIsFirstOccurrences(base, front);
      LastIsFirstIff(base, caps);
      var prev, pfs := Dedupe(base, front), Firsts(front);
      var out, fs := Dedupe(base, caps), Firsts(caps);
      forall j | 0 <= j < |pfs| ensures pfs[j] < n - 1 && caps[pfs[j]] == front[pfs[j]] {
      }
      if IsFirst(caps, n - 1) {
        assert out == prev + [Build(base, caps[n - 1])];
        assert fs == pfs + [n - 1];
      } else {
        assert out == prev && fs == pfs;
      }
    }
  }

  /** For a real match, only the size of the number decides a panic: the
      digit run parses exactly when its value is below 65536. */
  lemma {:induction false} MatchFitsIffSmall(c: Capture)
    requires IsMatch(c)
    ensures Fits(c) <==> DigitsValue(c.digits) < 0x1_0000
  {
    assert Unsigned(c.digits) == c.digits by {
      assert IsDigit(c.digits[0]);
    }
  }

  /** Build numbers written with extra leading zeros are the same build: a
      later `007-…` after a `7-…` is dropped, and the URL keeps the first
      spelling. */
  lemma {:induction false} ZeroPaddedRepeatDropped(base: string, d: string, h1: string, h2: string, z: nat)
    requires Fits(Capture(d, h1)) && AllDigits(d) && |d| > 0
    ensures AllFit([Capture(d, h1), Capture(Zeros(z) + d, h2)])
    ensures Dedupe(base, [Capture(d, h1), Capture(Zeros(z) + d, h2)]) == [Build(base, Capture(d, h1))]
  {
    var padded := Zeros(z) + d;
    ParseIgnoresLeadingZeros(z, d);
    var first, second := Capture(d, h1), Capture(padded, h2);
    var caps := [first, second];
    assert Fits(second) && NumOf(second) == NumOf(first);
    assert caps[0] == first && caps[1] == second;
    assert caps[..0] == [] && caps[..2] == caps;
    DedupeStep(base, caps, 0);
    assert Dedupe(base, caps[..1]) == [Build(base, first)];
    DedupeStep(base, caps, 1);
    assert Nums([Build(base, first)])[0] == NumOf(second);
  }
}
