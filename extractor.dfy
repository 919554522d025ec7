/**
 * The extractor, `MainWindow::parseJSON`: from a parsed document it reads
 * "NumberOfPositions" as n and sums the "x" and "y" members of the objects
 * stored under "Position0" ... "Position<n-1>". A value that is absent or of
 * the wrong kind counts as 0. A document that did not parse gives the
 * sentinel triple (-1, -1, -1).
 */
module Extractor {
  import opened Wrappers
  import opened Json
  import Decimal

  /** The result of the source's parser: the count, then the combined x and y. */
  type Triple = (int, int, int)

  const Sentinel: Triple := (-1, -1, -1)

  const CountKey := "NumberOfPositions"

  /** The key of the i-th position object, "Position" followed by i in decimal. */
  function PositionKey(i: nat): (key: string)
    ensures |key| > |"Position"| && key[..|"Position"|] == "Position"
    ensures Decimal.Canonical(key[|"Position"|..]) && Decimal.DecimalValue(key[|"Position"|..]) == i
  {
    Decimal.DecimalValueOfNatToDecimal(i);
    var key := "Position" + Decimal.NatToDecimal(i);
    assert key[|"Position"|..] == Decimal.NatToDecimal(i);
    key
  }

  /** The declared number of positions, as `toInt` reads it. */
  function Count(root: JsonObject): (n: int)
    ensures InIntRange(n)
    ensures CountKey in root && root[CountKey].Number? && InIntRange(root[CountKey].n) ==> n == root[CountKey].n
    ensures n != 0 ==> CountKey in root && root[CountKey] == Number(n)
  {
    ToInt(Value(root, CountKey))
  }

  /** The `axis` member ("x" or "y") of the i-th position, 0 when any step of the lookup fails. */
  function Coordinate(root: JsonObject, i: nat, axis: string): (c: int)
    ensures InIntRange(c)
    ensures c != 0 ==> PositionKey(i) in root && root[PositionKey(i)].Object?
                       && axis in root[PositionKey(i)].members
                       && root[PositionKey(i)].members[axis] == Number(c)
    ensures PositionKey(i) in root && root[PositionKey(i)].Object?
            && axis in root[PositionKey(i)].members
            && root[PositionKey(i)].members[axis].Number?
            && InIntRange(root[PositionKey(i)].members[axis].n)
            ==> c == root[PositionKey(i)].members[axis].n
  {
    ToInt(Value(ToObject(Value(root, PositionKey(i))), axis))
  }

  /** The sum of the `axis` members of positions 0 .. n-1; an empty sum when n <= 0. */
  function Sum(root: JsonObject, axis: string, n: int): int
    decreases n
  {
    if n <= 0 then 0 else Sum(root, axis, n - 1) + Coordinate(root, n - 1, axis)
  }

  /** What `parseJSON` returns for a parse outcome (None: the text did not parse). */
  function Extract(parsed: Option<JsonValue>): (r: Triple)
    ensures r == Sentinel <==> parsed.None?
    ensures parsed.Some? ==> r.0 == Count(ToObject(parsed.value))
    ensures parsed.Some? && r.0 <= 0 ==> r.1 == 0 && r.2 == 0
  {
    match parsed
    case None => Sentinel
    case Some(doc) =>
      var root := ToObject(doc);
      var n := Count(root);
      (n, Sum(root, "x", n), Sum(root, "y", n))
  }

  /**
   * The counting loop of `parseJSON`. The sentinel comes back exactly when
   * the document did not parse: a parsed document whose count is -1 still
   * has sums 0.
   */
  method ParseJson(parsed: Option<JsonValue>) returns (result: Triple)
    ensures result == Extract(parsed)
    ensures result == Sentinel <==> parsed.None?
    ensures parsed.Some? && result.0 <= 0 ==> result.1 == 0 && result.2 == 0
  {
    result := Sentinel;
    var numElements, sumX, sumY := 0, 0, 0;
    if parsed.Some? {
      var root := ToObject(parsed.value);
      numElements := ToInt(Value(root, CountKey));
      var i := 0;
      while i < numElements
        invariant 0 <= i && (i <= numElements || i == 0)
        invariant sumX == Sum(root, "x", i) && sumY == Sum(root, "y", i)
      {
        var position := Value(root, PositionKey(i));
        var positionItem := ToObject(position);
        sumX := sumX + ToInt(Value(positionItem, "x"));
        sumY := sumY + ToInt(Value(positionItem, "y"));
        i := i + 1;
      }
      result := (numElements, sumX, sumY);
    }
  }

  /** Different indices give different keys, so no position is read twice. */
  lemma PositionKeyInjective(i: nat, j: nat)
    ensures PositionKey(i) == PositionKey(j) <==> i == j
  {
    if PositionKey(i) == PositionKey(j) {
      var p := "Position";
      assert Decimal.NatToDecimal(i) == PositionKey(i)[|p|..];
      assert Decimal.NatToDecimal(j) == PositionKey(j)[|p|..];
      Decimal.NatToDecimalInjective(i, j);
    }
  }

  /** A parsed document without an integral "NumberOfPositions" counts as declaring none. */
  lemma CountMissingOrNotInteger(root: JsonObject)
    requires CountKey !in root || !root[CountKey].Number?
    ensures Extract(Some(Object(root))) == (0, 0, 0)
  {
  }

  // ---- documents that follow the schema ----

  /** The member `key` of `obj` holds the integral number v, small enough for `toInt`. */
  predicate HoldsInt(obj: JsonObject, key: string, v: int) {
    key in obj && obj[key] == Number(v) && InIntRange(v)
  }

  /**
   * `root` follows the schema for the positions (xs[i], ys[i]):
   * "NumberOfPositions" is their number and every "Position<i>" is an object
   * with integral members x and y.
   */
  ghost predicate Conforms(root: JsonObject, xs: seq<int>, ys: seq<int>) {
    |xs| == |ys| &&
    HoldsInt(root, CountKey, |xs|) &&
    forall i :: 0 <= i < |xs| ==>
      PositionKey(i) in root && root[PositionKey(i)].Object? &&
      HoldsInt(root[PositionKey(i)].members, "x", xs[i]) &&
      HoldsInt(root[PositionKey(i)].members, "y", ys[i])
  }

  function SeqSum(s: seq<int>): int {
    if s == [] then 0 else SeqSum(s[..|s| - 1]) + s[|s| - 1]
  }

  lemma {:induction false} SumOfConformingPrefix(root: JsonObject, xs: seq<int>, ys: seq<int>, k: nat)
    requires Conforms(root, xs, ys) && k <= |xs|
    ensures Sum(root, "x", k) == SeqSum(xs[..k]) && Sum(root, "y", k) == SeqSum(ys[..k])
    decreases k
  {
    if k > 0 {
      SumOfConformingPrefix(root, xs, ys, k - 1);
      assert xs[..k][..k - 1] == xs[..k - 1];
      assert ys[..k][..k - 1] == ys[..k - 1];
    }
  }

  /** A document that follows the schema yields (n, sum of the x, sum of the y). */
  lemma ConformingDocument(root: JsonObject, xs: seq<int>, ys: seq<int>)
    requires Conforms(root, xs, ys)
    ensures Extract(Some(Object(root))) == (|xs|, SeqSum(xs), SeqSum(ys))
  {
    SumOfConformingPrefix(root, xs, ys, |xs|);
    assert xs[..|xs|] == xs && ys[..|ys|] == ys;
  }

  // ---- leniency: only the schema keys matter, and absent positions count as zero ----

  lemma {:induction false} SumReadsOnlyPositionKeys(a: JsonObject, b: JsonObject, axis: string, n: int)
    requires forall i: nat :: i < n ==> Value(a, PositionKey(i)) == Value(b, PositionKey(i))
    ensures Sum(a, axis, n) == Sum(b, axis, n)
    decreases n
  {
    if n > 0 {
      SumReadsOnlyPositionKeys(a, b, axis, n - 1);
    }
  }

  /**
   * Two documents that agree on "NumberOfPositions" and on the n position
   * keys it asks for give the same result: every other key is ignored.
   */
  lemma OnlySchemaKeysMatter(a: JsonObject, b: JsonObject)
    requires Value(a, CountKey) == Value(b, CountKey)
    requires forall i: nat :: i < Count(a) ==> Value(a, PositionKey(i)) == Value(b, PositionKey(i))
    ensures Extract(Some(Object(a))) == Extract(Some(Object(b)))
  {
    SumReadsOnlyPositionKeys(a, b, "x", Count(a));
    SumReadsOnlyPositionKeys(a, b, "y", Count(a));
  }

  lemma {:induction false} SumWithoutPosition(root: JsonObject, axis: string, j: nat, n: int)
    ensures Sum(root - {PositionKey(j)}, axis, n)
         == Sum(root, axis, n) - (if j < n then Coordinate(root, j, axis) else 0)
    decreases n
  {
    if n > 0 {
      SumWithoutPosition(root, axis, j, n - 1);
      PositionKeyInjective(j, n - 1);
    }
  }

  /**
   * The count is not checked against the positions present: deleting the
   * entry "Position<j>" for some j < n keeps n and removes exactly that
   * position's contribution from each sum.
   */
  lemma MissingPositionCountsAsZero(root: JsonObject, j: nat)
    requires j < Count(root)
    ensures var e := Extract(Some(Object(root - {PositionKey(j)})));
            var f := Extract(Some(Object(root)));
            e == (f.0, f.1 - Coordinate(root, j, "x"), f.2 - Coordinate(root, j, "y"))
  {
    assert CountKey != PositionKey(j) by {
      assert CountKey[0] != PositionKey(j)[0];
    }
    assert Count(root - {PositionKey(j)}) == Count(root);
    SumWithoutPosition(root, "x", j, Count(root));
    SumWithoutPosition(root, "y", j, Count(root));
  }

  // ---- worked examples ----

  lemma NoPositions()
    ensures Extract(Some(Object(map[CountKey := Number(0)]))) == (0, 0, 0)
  {
  }

  function Point(x: int, y: int): JsonValue {
    Object(map["x" := Number(x), "y" := Number(y)])
  }

  lemma TwoPositions()
    ensures Extract(Some(Object(map[CountKey := Number(2), "Position0" := Point(1, 2), "Position1" := Point(3, 4)])))
         == (2, 4, 6)
  {
    assert PositionKey(0) == "Position0" && PositionKey(1) == "Position1";
  }

  lemma SecondPositionMissing()
    ensures Extract(Some(Object(map[CountKey := Number(2), "Position0" := Point(1, 2)]))) == (2, 1, 2)
  {
    assert PositionKey(0) == "Position0" && PositionKey(1) == "Position1";
  }

  lemma SecondXNotANumber()
    ensures Extract(Some(Object(map[CountKey := Number(2), "Position0" := Point(1, 2),
                                    "Position1" := Object(map["x" := Other, "y" := Number(3)])])))
         == (2, 1, 5)
  {
    assert PositionKey(0) == "Position0" && PositionKey(1) == "Position1";
  }
}
