/** addOne and generateFeatures of benchmark/benchmain/main.go: a mixed-radix counter whose
    digits of radix zero stand still. */
module Odometers {
  import opened Prelude

  function Digit(radix: nat): (weight: nat)
    ensures weight > 0
  {
    if radix == 0 then 1 else radix
  }

  /** The number of combinations: the product of the non-zero radices. */
  function Total(radices: seq<nat>): (n: nat)
    ensures n > 0
  {
    if radices == [] then 1
    else
      Positive(Total(radices[..|radices| - 1]), Digit(radices[|radices| - 1]));
      Total(radices[..|radices| - 1]) * Digit(radices[|radices| - 1])
  }

  lemma Positive(a: nat, b: nat)
    requires a > 0 && b > 0
    ensures a * b > 0
  {
  }

  /** A combination: each digit below its radix, and zero where the radix is zero. */
  ghost predicate Legal(digits: seq<nat>, radices: seq<nat>) {
    |digits| == |radices| && forall i :: 0 <= i < |digits| ==> digits[i] < Digit(radices[i])
  }

  /** The number the digits spell, the last one counting fastest. */
  function Value(digits: seq<nat>, radices: seq<nat>): (v: nat)
    requires |digits| == |radices|
  {
    if digits == [] then 0
    else
      var last := |digits| - 1;
      Value(digits[..last], radices[..last]) * Digit(radices[last]) + digits[last]
  }

  /** addOne on values: the carry moves left past full digits and past radix zero. */
  function Next(digits: seq<nat>, radices: seq<nat>): (r: seq<nat>)
    requires |digits| == |radices|
    ensures |r| == |digits|
  {
    if digits == [] then []
    else
      var last := |digits| - 1;
      var d, radix := digits[last], radices[last];
      if radix == 0 then Next(digits[..last], radices[..last]) + [d]
      else if d + 1 < radix then digits[..last] + [d + 1]
      else Next(digits[..last], radices[..last]) + [(d + 1) % radix]
  }

  lemma DigitBound(a: nat, b: nat, w: nat, d: nat)
    requires a < b && d < w
    ensures a * w + d < b * w
  {
    assert (a + 1) * w <= b * w;
  }

  lemma DigitUnique(a: nat, b: nat, w: nat, d: nat, e: nat)
    requires d < w && e < w && a * w + d == b * w + e
    ensures a == b && d == e
  {
    if a < b {
      DigitBound(a, b, w, d);
    } else if b < a {
      DigitBound(b, a, w, e);
    }
  }

  lemma {:induction false} ValueBelowTotal(digits: seq<nat>, radices: seq<nat>)
    requires Legal(digits, radices)
    ensures Value(digits, radices) < Total(radices)
  {
    if digits != [] {
      var last := |digits| - 1;
      ValueBelowTotal(digits[..last], radices[..last]);
      DigitBound(Value(digits[..last], radices[..last]), Total(radices[..last]), Digit(radices[last]), digits[last]);
    }
  }

  /** Different combinations spell different numbers. */
  lemma {:induction false} ValueIsInjective(a: seq<nat>, b: seq<nat>, radices: seq<nat>)
    requires Legal(a, radices) && Legal(b, radices) && Value(a, radices) == Value(b, radices)
    ensures a == b
  {
    if a != [] {
      var last := |a| - 1;
      var init := radices[..last];
      DigitUnique(Value(a[..last], init), Value(b[..last], init), Digit(radices[last]), a[last], b[last]);
      ValueIsInjective(a[..last], b[..last], init);
      assert a == a[..last] + [a[last]] && b == b[..last] + [b[last]];
    }
  }

  lemma ValueSnoc(head: seq<nat>, d: nat, radices: seq<nat>)
    requires |head| + 1 == |radices|
    ensures Value(head + [d], radices) == Value(head, radices[..|head|]) * Digit(radices[|head|]) + d
  {
    assert (head + [d])[..|head|] == head;
  }

  lemma LegalSnoc(head: seq<nat>, d: nat, radices: seq<nat>)
    requires |head| + 1 == |radices| && Legal(head, radices[..|head|]) && d < Digit(radices[|head|])
    ensures Legal(head + [d], radices)
  {
  }

  /** The increment of a combination with last digit d. */
  lemma NextSnoc(head: seq<nat>, d: nat, radices: seq<nat>)
    requires |head| + 1 == |radices|
    ensures var init, radix := radices[..|head|], radices[|head|];
            Next(head + [d], radices) ==
            (if radix == 0 then Next(head, init) + [d]
             else if d + 1 < radix then head + [d + 1]
             else Next(head, init) + [(d + 1) % radix])
  {
    assert (head + [d])[..|head|] == head;
  }

  /** Carrying out of a full digit of weight w. */
  lemma CarryAddsOne(h: nat, carried: nat, total: nat, w: nat)
    requires h < total && w > 0 && carried == if h + 1 < total then h + 1 else 0
    ensures w % w == 0
    ensures carried * w == if h * w + w < total * w then h * w + w else 0
  {
    assert h * w + w == (h + 1) * w;
    if h + 1 < total {
      DigitBound(h + 1, total, w, 0);
    }
  }

  ghost predicate AddsOne(digits: seq<nat>, radices: seq<nat>)
    requires Legal(digits, radices)
  {
    var v := Value(digits, radices) + 1;
    Legal(Next(digits, radices), radices) &&
    Value(Next(digits, radices), radices) == if v < Total(radices) then v else 0
  }

  lemma NextStops(head: seq<nat>, d: nat, radices: seq<nat>)
    requires |head| + 1 == |radices| && Legal(head + [d], radices)
    requires radices[|head|] != 0 && d + 1 < radices[|head|]
    ensures AddsOne(head + [d], radices)
  {
    var init := radices[..|head|];
    assert Legal(head, init) by { assert forall i | 0 <= i < |head| :: head[i] == (head + [d])[i]; }
    NextSnoc(head, d, radices);
    ValueSnoc(head, d, radices);
    ValueSnoc(head, d + 1, radices);
    LegalSnoc(head, d + 1, radices);
    ValueBelowTotal(head + [d + 1], radices);
  }

  lemma NextCarries(head: seq<nat>, d: nat, radices: seq<nat>)
    requires |head| + 1 == |radices| && Legal(head + [d], radices)
    requires d + 1 == Digit(radices[|head|])
    requires Legal(head, radices[..|head|]) && AddsOne(head, radices[..|head|])
    ensures AddsOne(head + [d], radices)
  {
    var init, w := radices[..|head|], Digit(radices[|head|]);
    var next := Next(head, init);
    ValueBelowTotal(head, init);
    CarryAddsOne(Value(head, init), Value(next, init), Total(init), w);
    NextSnoc(head, d, radices);
    ValueSnoc(head, d, radices);
    ValueSnoc(next, 0, radices);
    LegalSnoc(next, 0, radices);
  }

  /** addOne adds one, and wraps to zero after the last combination. */
  lemma {:induction false} NextAddsOne(digits: seq<nat>, radices: seq<nat>)
    requires Legal(digits, radices)
    ensures Legal(Next(digits, radices), radices)
    ensures var v := Value(digits, radices) + 1;
            Value(Next(digits, radices), radices) == if v < Total(radices) then v else 0
  {
    if digits != [] {
      var head, d := digits[..|digits| - 1], digits[|digits| - 1];
      assert digits == head + [d];
      if radices[|head|] != 0 && d + 1 < radices[|head|] {
        NextStops(head, d, radices);
      } else {
        NextAddsOne(head, radices[..|head|]);
        NextCarries(head, d, radices);
      }
    }
  }

  method AddOne(features: array<nat>, max: seq<nat>)
    requires features.Length == |max|
    modifies features
    ensures features[..] == Next(old(features[..]), max)
  {
    ghost var was := features[..];
    ghost var tail: seq<nat> := [];
    var i := features.Length - 1;
    assert was[..i + 1] == was && max[..i + 1] == max;
    while i >= 0
      invariant -1 <= i < features.Length
      invariant features[..] == was[..i + 1] + tail
      invariant Next(was, max) == Next(was[..i + 1], max[..i + 1]) + tail
    {
      NextAt(was, max, i, tail);
      ghost var before := features[..];
      assert features[i] == before[i] == was[i];
      if max[i] == 0 {
        SetAt(was, i, tail, was[i]);
        tail := [was[i]] + tail;
        i := i - 1;
        continue;
      }
      features[i] := features[i] + 1;
      QuotientIsZero(features[i], max[i]);
      if features[i] / max[i] == 0 {
        assert features[..] == before[i := was[i] + 1];
        SetAt(was, i, tail, was[i] + 1);
        return;
      }
      features[i] := features[i] % max[i];
      assert features[..] == before[i := (was[i] + 1) % max[i]];
      SetAt(was, i, tail, (was[i] + 1) % max[i]);
      tail := [(was[i] + 1) % max[i]] + tail;
      i := i - 1;
    }
  }

  /** One turn of the loop: what the remaining increment is after looking at digit i. */
  lemma NextAt(was: seq<nat>, max: seq<nat>, i: nat, tail: seq<nat>)
    requires |was| == |max| && i < |was|
    ensures var rest := Next(was[..i + 1], max[..i + 1]) + tail;
            var d := was[i];
            rest == if max[i] == 0 then Next(was[..i], max[..i]) + ([d] + tail)
                    else if d + 1 < max[i] then was[..i] + ([d + 1] + tail)
                    else Next(was[..i], max[..i]) + ([(d + 1) % max[i]] + tail)
  {
    assert was[..i + 1] == was[..i] + [was[i]];
    assert max[..i + 1][..i] == max[..i];
    NextSnoc(was[..i], was[i], max[..i + 1]);
  }

  lemma SetAt(was: seq<nat>, i: nat, tail: seq<nat>, x: nat)
    requires i < |was|
    ensures (was[..i + 1] + tail)[i := x] == was[..i] + ([x] + tail)
  {
  }

  lemma QuotientIsZero(n: nat, radix: nat)
    requires radix > 0
    ensures n / radix == 0 <==> n < radix
  {
  }

  function Zeros(n: nat): (z: seq<nat>)
    ensures |z| == n && forall i :: 0 <= i < n ==> z[i] == 0
  {
    seq(n, _ => 0)
  }

  lemma {:induction false} ZerosAreZero(radices: seq<nat>)
    ensures Legal(Zeros(|radices|), radices) && Value(Zeros(|radices|), radices) == 0
  {
    if radices != [] {
      var init := radices[..|radices| - 1];
      ZerosAreZero(init);
      assert Zeros(|radices|)[..|radices| - 1] == Zeros(|init|);
    }
  }

  /** The combinations in counting order: the k-th spells k. */
  ghost predicate InCountingOrder(visited: seq<seq<nat>>, radices: seq<nat>) {
    forall k :: 0 <= k < |visited| ==> Legal(visited[k], radices) && Value(visited[k], radices) == k
  }

  /** A full count visits every combination exactly once. */
  lemma CountVisitsEachOnce(visited: seq<seq<nat>>, radices: seq<nat>)
    requires InCountingOrder(visited, radices) && |visited| == Total(radices)
    ensures NoDuplicates(visited)
    ensures forall d :: Legal(d, radices) <==> d in visited
  {
    forall d | Legal(d, radices)
      ensures d in visited
    {
      ValueBelowTotal(d, radices);
      ValueIsInjective(d, visited[Value(d, radices)], radices);
    }
  }

  /** Between two turns: the combinations before `cur` have been visited, or all of them. */
  ghost predicate Counting(visited: seq<seq<nat>>, cur: seq<nat>, radices: seq<nat>) {
    && InCountingOrder(visited, radices) && |visited| <= Total(radices)
    && Legal(cur, radices)
    && Value(cur, radices) == if |visited| < Total(radices) then |visited| else 0
  }

  lemma CountStep(visited: seq<seq<nat>>, cur: seq<nat>, radices: seq<nat>)
    requires Counting(visited, cur, radices) && (visited == [] || cur != Zeros(|radices|))
    ensures |visited| < Total(radices) && Counting(visited + [cur], Next(cur, radices), radices)
  {
    NextAddsOne(cur, radices);
    if |visited| == Total(radices) {
      ZerosAreZero(radices);
      ValueIsInjective(cur, Zeros(|radices|), radices);
      assert false;
    }
  }

  lemma CountEnds(visited: seq<seq<nat>>, radices: seq<nat>)
    requires Counting(visited, Zeros(|radices|), radices) && visited != []
    ensures |visited| == Total(radices)
  {
    ZerosAreZero(radices);
  }

  /** generateFeatures stops when the positions are all zero again, after exactly the product of the
      non-zero radices, having visited every combination once. */
  method GenerateFeatures(featuresNum: seq<nat>) returns (visited: seq<seq<nat>>)
    ensures |visited| == Total(featuresNum) && InCountingOrder(visited, featuresNum)
    ensures NoDuplicates(visited)
    ensures forall d :: Legal(d, featuresNum) <==> d in visited
  {
    var curPos := new nat[|featuresNum|](_ => 0);
    var initialPos := Zeros(|featuresNum|);
    ZerosAreZero(featuresNum);
    assert curPos[..] == initialPos;
    visited := [];
    while |visited| == 0 || curPos[..] != initialPos
      invariant Counting(visited, curPos[..], featuresNum)
      decreases Total(featuresNum) - |visited|
    {
      CountStep(visited, curPos[..], featuresNum);
      visited := visited + [curPos[..]];
      AddOne(curPos, featuresNum);
    }
    CountEnds(visited, featuresNum);
    CountVisitsEachOnce(visited, featuresNum);
  }
}
