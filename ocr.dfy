/**
 * ocr_numero.py: reading a jersey number. The central band of the player's
 * box is cropped from the frame; the text reader's output is reduced to the
 * digit strings it contains, and the most probable one is returned.
 * The reader is a parameter: the readings it returns, or None when it raises.
 */
module JerseyOcr {
  import opened Wrappers
  import opened Geometry

  /** One reader result `(bbox, txt, prob)`; the bounding box is not used. */
  datatype Reading = Reading(text: string, prob: real)

  /** An entry of `nums`: the digits of one reading and its probability. */
  datatype Candidate = Candidate(digits: string, prob: real)

  predicate IsDigit(c: char)
  {
    '0' <= c <= '9'
  }

  /** `''.join([c for c in txt if c.isdigit()])`. */
  function Digits(s: string): (r: string)
    ensures |r| <= |s|
    ensures forall k :: 0 <= k < |r| ==> IsDigit(r[k])
    decreases |s|
  {
    if s == [] then []
    else
      var rest := Digits(s[..|s| - 1]);
      if IsDigit(s[|s| - 1]) then rest + [s[|s| - 1]] else rest
  }

  /** The digit filter keeps every digit occurrence and nothing else. */
  lemma {:induction false} DigitsCounts(s: string, c: char)
    ensures multiset(Digits(s))[c] == if IsDigit(c) then multiset(s)[c] else 0
    decreases |s|
  {
    if s != [] {
      var n := |s| - 1;
      DigitsCounts(s[..n], c);
      assert s == s[..n] + [s[n]];
    }
  }

  /** A string of digits passes the filter unchanged, so filtering twice is filtering once. */
  lemma {:induction false} DigitsOfDigits(s: string)
    requires forall k :: 0 <= k < |s| ==> IsDigit(s[k])
    ensures Digits(s) == s
    decreases |s|
  {
    if s != [] {
      var n := |s| - 1;
      DigitsOfDigits(s[..n]);
      assert s == s[..n] + [s[n]];
    }
  }

  /**
   * The filter works character by character and keeps the order: a digit
   * stays, anything else goes, and the filtered halves of a string are
   * concatenated in place.
   */
  lemma {:induction false} DigitsAppend(a: string, b: string)
    ensures Digits(a + b) == Digits(a) + Digits(b)
    decreases |b|
  {
    if b == [] {
      assert a + b == a;
    } else {
      var n := |b| - 1;
      assert (a + b)[..|a + b| - 1] == a + b[..n];
      DigitsAppend(a, b[..n]);
    }
  }

  lemma DigitsSingle(c: char)
    ensures Digits([c]) == if IsDigit(c) then [c] else []
  {
    assert [c][..0] == [];
  }

  lemma DigitsIdempotent(s: string)
    ensures Digits(Digits(s)) == Digits(s)
  {
    DigitsOfDigits(Digits(s));
  }

  /** The `nums` list built by the loop: one candidate per reading that contains a digit, in reader order. */
  function Candidates(rs: seq<Reading>): seq<Candidate>
    decreases |rs|
  {
    if rs == [] then []
    else
      var last := rs[|rs| - 1];
      var rest := Candidates(rs[..|rs| - 1]);
      var s := Digits(last.text);
      if |s| > 0 then rest + [Candidate(s, last.prob)] else rest
  }

  /**
   * Every candidate is the digit string of some reading with its
   * probability, never empty; every reading that has a digit yields one.
   */
  lemma {:induction false} CandidatesMeaning(rs: seq<Reading>, c: Candidate)
    ensures c in Candidates(rs) <==>
      exists i :: 0 <= i < |rs| && |Digits(rs[i].text)| > 0 && c == Candidate(Digits(rs[i].text), rs[i].prob)
    ensures |Candidates(rs)| <= |rs|
    decreases |rs|
  {
    if rs != [] {
      var n := |rs| - 1;
      CandidatesMeaning(rs[..n], c);
      if exists i :: 0 <= i < |rs| && |Digits(rs[i].text)| > 0 && c == Candidate(Digits(rs[i].text), rs[i].prob) {
        var i :| 0 <= i < |rs| && |Digits(rs[i].text)| > 0 && c == Candidate(Digits(rs[i].text), rs[i].prob);
        if i < n {
          assert rs[..n][i] == rs[i];
        }
      }
      if exists i :: 0 <= i < n && |Digits(rs[..n][i].text)| > 0 && c == Candidate(Digits(rs[..n][i].text), rs[..n][i].prob) {
        var i :| 0 <= i < n && |Digits(rs[..n][i].text)| > 0 && c == Candidate(Digits(rs[..n][i].text), rs[..n][i].prob);
        assert rs[i] == rs[..n][i];
      }
    }
  }

  /**
   * The head of `nums` sorted by descending probability: the sort is stable,
   * so it is the earliest candidate of maximal probability.
   */
  function FirstMaximum(nums: seq<Candidate>): (i: nat)
    requires nums != []
    ensures i < |nums|
    ensures forall j :: 0 <= j < |nums| ==> nums[j].prob <= nums[i].prob
    ensures forall j :: 0 <= j < i ==> nums[j].prob < nums[i].prob
    decreases |nums|
  {
    if |nums| == 1 then 0
    else
      var best := FirstMaximum(nums[..|nums| - 1]);
      if nums[|nums| - 1].prob > nums[best].prob then |nums| - 1 else best
  }

  /** The number read from a list of readings, or None when none has a digit. */
  function NumberOf(rs: seq<Reading>): Option<string>
  {
    var nums := Candidates(rs);
    if nums == [] then None else Some(nums[FirstMaximum(nums)].digits)
  }

  /** A returned number is non-empty, all digits, and as probable as any reading that has a digit. */
  lemma NumberOfMeaning(rs: seq<Reading>)
    ensures NumberOf(rs).None? <==> forall i :: 0 <= i < |rs| ==> Digits(rs[i].text) == []
    ensures NumberOf(rs).Some? ==>
      var s := NumberOf(rs).value;
      |s| > 0 && (forall k :: 0 <= k < |s| ==> IsDigit(s[k])) &&
      exists i :: 0 <= i < |rs| && s == Digits(rs[i].text) &&
        forall j :: 0 <= j < |rs| && |Digits(rs[j].text)| > 0 ==> rs[j].prob <= rs[i].prob
  {
    var nums := Candidates(rs);
    if nums == [] {
      forall i | 0 <= i < |rs| ensures Digits(rs[i].text) == [] {
        CandidatesMeaning(rs, Candidate(Digits(rs[i].text), rs[i].prob));
      }
    } else {
      var b := FirstMaximum(nums);
      CandidatesMeaning(rs, nums[b]);
      var i :| 0 <= i < |rs| && |Digits(rs[i].text)| > 0 && nums[b] == Candidate(Digits(rs[i].text), rs[i].prob);
      forall j | 0 <= j < |rs| && |Digits(rs[j].text)| > 0 ensures rs[j].prob <= rs[i].prob {
        var cj := Candidate(Digits(rs[j].text), rs[j].prob);
        CandidatesMeaning(rs, cj);
        var k :| 0 <= k < |nums| && nums[k] == cj;
      }
    }
  }

  // ---------------------------------------------------------------------
  // The crop
  // ---------------------------------------------------------------------

  /** Python's `int(x)` on a float: truncation toward zero. */
  function Trunc(x: real): int
  {
    if x >= 0.0 then x.Floor else -((-x).Floor)
  }

  /** A bound of a Python slice `[lo:hi]` on a dimension of length `n`: wrapped once if negative, then clamped. */
  function SliceBound(n: nat, i: int): (b: nat)
    ensures b <= n
  {
    if i < 0 then (if i + n < 0 then 0 else i + n) else if i > n then n else i
  }

  /** The number of elements of `[lo:hi]` on a dimension of length `n`. */
  function SliceLength(n: nat, lo: int, hi: int): (len: nat)
    ensures len <= n
  {
    var a := SliceBound(n, lo);
    var b := SliceBound(n, hi);
    if b <= a then 0 else b - a
  }

  /** The rows `[cy1, cy2)` of the torso band: from 20% to 80% of the box height below its top. */
  function BandRows(box: Box): (int, int)
  {
    var y1 := Trunc(box.y1);
    var h := Trunc(box.y2) - y1;
    (y1 + Trunc(h as real * 0.2), y1 + Trunc(h as real * 0.8))
  }

  /** Whether `frame[cy1:cy2, x1:x2]` has no pixels. */
  predicate CropEmpty(frameHeight: nat, frameWidth: nat, box: Box)
  {
    var (cy1, cy2) := BandRows(box);
    SliceLength(frameHeight, cy1, cy2) == 0 || SliceLength(frameWidth, Trunc(box.x1), Trunc(box.x2)) == 0
  }

  /** For a box whose top is above its bottom the band lies inside the box, top part first. */
  lemma BandWithinBox(box: Box)
    requires Trunc(box.y1) <= Trunc(box.y2)
    ensures var (cy1, cy2) := BandRows(box);
      Trunc(box.y1) <= cy1 <= cy2 <= Trunc(box.y2)
  {
    var h := Trunc(box.y2) - Trunc(box.y1);
    var lo := h as real * 0.2;
    var hi := h as real * 0.8;
    assert 0.0 <= lo <= hi <= h as real;
    assert lo.Floor <= hi.Floor;
    assert hi.Floor <= h;
  }

  /** `JerseyOCR.read_number(frame, box)`, for a frame of the given size. */
  method ReadNumber(frameHeight: nat, frameWidth: nat, box: Box, reader: Option<seq<Reading>>)
    returns (r: Option<string>)
    ensures CropEmpty(frameHeight, frameWidth, box) || reader.None? ==> r.None?
    ensures !CropEmpty(frameHeight, frameWidth, box) && reader.Some? ==> r == NumberOf(reader.value)
  {
    if CropEmpty(frameHeight, frameWidth, box) {
      return None;
    }
    if reader.None? {
      return None;
    }
    var results := reader.value;
    var nums: seq<Candidate> := [];
    for i := 0 to |results|
      invariant nums == Candidates(results[..i])
    {
      assert results[..i + 1][..i] == results[..i];
      var s := Digits(results[i].text);
      if |s| > 0 {
        nums := nums + [Candidate(s, results[i].prob)];
      }
    }
    assert results[..|results|] == results;
    if nums != [] {
      return Some(nums[FirstMaximum(nums)].digits);
    }
    return None;
  }
}
