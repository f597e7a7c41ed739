/** `calc_avg_bill_depth_by_island_and_sex` (penguin_analysis.py:87-123):
    the mean bill depth per island and sex, over the rows of every species
    together. */
module BillDepth {
  import opened Wrappers
  import opened Seqs
  import opened Text
  import opened Dicts
  import opened Loader

  /** `float()` on a depth cell that is not a number (line 104). */
  datatype BillError = BadDepth(text: string)

  /** The three cells of one row that the aggregation reads (lines 97-99). */
  datatype Sighting = Sighting(island: string, sex: string, depth: string)

  /** Row i of one species' record. */
  function SightingsOf(rec: Record): seq<Sighting>
    requires rec.Aligned()
  {
    seq(|rec.islands|, i requires 0 <= i < |rec.islands| => Sighting(rec.islands[i], rec.sex[i], rec.depths[i]))
  }

  /** Every species in `keys` has an entry of aligned lists. */
  predicate Covers(keys: seq<string>, values: map<string, Record>)
  {
    forall i :: 0 <= i < |keys| ==> keys[i] in values && values[keys[i]].Aligned()
  }

  /** The rows of the first `n` species of `keys`, species after species,
      as the double loop of lines 91-115 visits them. */
  function SightingsUpTo(keys: seq<string>, values: map<string, Record>, n: nat): seq<Sighting>
    requires Covers(keys, values) && n <= |keys|
  {
    if n == 0 then []
    else SightingsUpTo(keys, values, n - 1) + SightingsOf(values[keys[n - 1]])
  }

  /** Every row of the table, in visiting order. */
  function AllSightings(d: Table): seq<Sighting>
    requires WellFormed(d)
  {
    SightingsUpTo(d.keys, d.values, |d.keys|)
  }

  /** Line 101: a row takes part only with a non-empty island, a non-empty
      sex and a depth that is neither empty nor "NA"; island and sex are not
      compared with "NA". */
  predicate Qualifies(x: Sighting)
  {
    x.island != "" && x.sex != "" && !IsMissing(x.depth)
  }

  /** `totals[isl][key]`: a running sum and count. */
  datatype SumCount = SumCount(sum: real, n: nat)

  /** `totals[isl]`: one running sum and count per sex. */
  datatype BySex = BySex(male: SumCount, female: SumCount)

  /** The bucket an island gets on its first qualifying row (lines 106-110). */
  const NewBucket: BySex := BySex(SumCount(0.0, 0), SumCount(0.0, 0))

  /** The `totals` dict: island to bucket, in first-seen order. */
  type Buckets = Dict<BySex>

  /** The bucket of the sex `key`, "male" or "female". */
  function Pick(b: BySex, key: string): SumCount
    requires key == "male" || key == "female"
  {
    if key == "male" then b.male else b.female
  }

  /** Lines 106-115 for a qualifying row whose depth parsed to `v`: create the
      island's bucket if it has none, then add `v` to the bucket of the
      lower-cased sex if that is "male" or "female". */
  function Count(t: Buckets, x: Sighting, v: real): Buckets
  {
    var base := if x.island in t.values then t else Put(t, x.island, NewBucket);
    var b := base.values[x.island];
    var key := Lower(x.sex);
    if key == "male" then Put(base, x.island, b.(male := SumCount(b.male.sum + v, b.male.n + 1)))
    else if key == "female" then Put(base, x.island, b.(female := SumCount(b.female.sum + v, b.female.n + 1)))
    else base
  }

  /** Lines 97-115 for one row: skip it, abort on its depth, or count it. */
  function Tally(t: Buckets, x: Sighting, num: string -> Option<real>): Result<Buckets, BillError>
  {
    if !Qualifies(x) then Ok(t)
    else
      match num(x.depth)
      case None => Err(BadDepth(x.depth))
      case Some(v) => Ok(Count(t, x, v))
  }

  /** The `totals` dict after the rows `xs`, or the first depth that does not
      parse. */
  function Totals(xs: seq<Sighting>, num: string -> Option<real>): Result<Buckets, BillError>
  {
    if xs == [] then Ok(Empty())
    else
      match Totals(xs[..|xs| - 1], num)
      case Err(e) => Err(e)
      case Ok(t) => Tally(t, xs[|xs| - 1], num)
  }

  /** What `result[isl]` holds (lines 119-122). */
  datatype SexMeans = SexMeans(male: real, female: real)

  /** Lines 120-121: the sum over the count, or 0.0 for a count of zero. */
  function MeanOf(c: SumCount): real
  {
    if c.n != 0 then c.sum / c.n as real else 0.0
  }

  /** The second loop (lines 118-122) over the islands `keys`, in order. */
  function Summarised(keys: seq<string>, values: map<string, BySex>): Dict<SexMeans>
    requires forall k :: k in keys ==> k in values
  {
    if keys == [] then Empty()
    else
      var k := keys[|keys| - 1];
      var b := values[k];
      Put(Summarised(keys[..|keys| - 1], values), k, SexMeans(MeanOf(b.male), MeanOf(b.female)))
  }

  /** What `calc_avg_bill_depth_by_island_and_sex(d)` returns or raises. */
  function AvgBillDepth(d: Table, num: string -> Option<real>): Result<Dict<SexMeans>, BillError>
    requires WellFormed(d)
  {
    match Totals(AllSightings(d), num)
    case Err(e) => Err(e)
    case Ok(t) =>
      TotalsValid(AllSightings(d), num);
      Ok(Summarised(t.keys, t.values))
  }

  // ----- a declarative account of the result -----

  /** The islands of the qualifying rows, in row order, with repeats. */
  function QualifyingIslands(xs: seq<Sighting>): seq<string>
  {
    if xs == [] then []
    else
      var x := xs[|xs| - 1];
      QualifyingIslands(xs[..|xs| - 1]) + (if Qualifies(x) then [x.island] else [])
  }

  /** The depths of the qualifying rows on `isl` whose lower-cased sex is
      `key`, in row order. */
  function DepthsOf(xs: seq<Sighting>, num: string -> Option<real>, isl: string, key: string): seq<real>
  {
    if xs == [] then []
    else
      var x := xs[|xs| - 1];
      var counted := Qualifies(x) && x.island == isl && Lower(x.sex) == key && num(x.depth).Some?;
      DepthsOf(xs[..|xs| - 1], num, isl, key) + (if counted then [num(x.depth).value] else [])
  }

  /** The depth cell of the first qualifying row that does not parse. */
  function FirstBadDepth(xs: seq<Sighting>, num: string -> Option<real>): Option<string>
  {
    if xs == [] then None
    else
      match FirstBadDepth(xs[..|xs| - 1], num)
      case Some(t) => Some(t)
      case None =>
        var x := xs[|xs| - 1];
        if Qualifies(x) && num(x.depth).None? then Some(x.depth) else None
  }

  // ----- the imperative code -----

  /** Lines 87-123: tally every row of every species, then turn each
      island's sums and counts into means. */
  method CalcAvgBillDepth(d: Table, num: string -> Option<real>) returns (r: Result<Dict<SexMeans>, BillError>)
    requires WellFormed(d)
    ensures r == AvgBillDepth(d, num)
  {
    var totals: Buckets := Empty();
    var s := 0;
    while s < |d.keys|
      invariant 0 <= s <= |d.keys|
      invariant Totals(SightingsUpTo(d.keys, d.values, s), num) == Ok(totals)
    {
      var species := d.keys[s];
      ghost var done := SightingsUpTo(d.keys, d.values, s);
      var step := TallySpecies(totals, d.values[species], num, done);
      SpeciesStep(d, s, num, step);
      if step.Err? {
        return Err(step.error);
      }
      totals := step.value;
      s := s + 1;
    }
    AllTallied(d, num, totals);
    var result := Summarise(totals);
    r := Ok(result);
  }

  /** The inner loop of lines 96-115 over one species' rows, on the
      `totals` built from the rows `done` before them. */
  method TallySpecies(totals: Buckets, rec: Record, num: string -> Option<real>, ghost done: seq<Sighting>)
    returns (r: Result<Buckets, BillError>)
    requires rec.Aligned() && Totals(done, num) == Ok(totals)
    ensures r == Totals(done + SightingsOf(rec), num)
  {
    var islands, sexes, depths := rec.islands, rec.sex, rec.depths;
    ghost var ys := SightingsOf(rec);
    var t := totals;
    var i := 0;
    assert done + ys[..0] == done;
    while i < |islands|
      invariant 0 <= i <= |islands|
      invariant Totals(done + ys[..i], num) == Ok(t)
    {
      assert ys[i] == Sighting(islands[i], sexes[i], depths[i]);
      var step := TallyRow(t, islands[i], sexes[i], depths[i], num);
      RowStep(done, ys, i, num, t, step);
      if step.Err? {
        return step;
      }
      t := step.value;
      i := i + 1;
    }
    TakeAll(ys);
    r := Ok(t);
  }

  /** Lines 101-115 on one row, step by step. */
  method TallyRow(t: Buckets, isl: string, sx: string, dep: string, num: string -> Option<real>)
    returns (r: Result<Buckets, BillError>)
    ensures r == Tally(t, Sighting(isl, sx, dep), num)
  {
    if isl == "" || sx == "" || dep == "" || dep == "NA" {
      return Ok(t);
    }
    var parsed := num(dep);
    if parsed.None? {
      return Err(BadDepth(dep));
    }
    var depVal := parsed.value;
    var totals := t;
    if isl !in totals.values {
      totals := Put(totals, isl, NewBucket);
    }
    var key := Lower(sx);
    if key == "male" || key == "female" {
      var b := totals.values[isl];
      if key == "male" {
        totals := Put(totals, isl, b.(male := SumCount(b.male.sum + depVal, b.male.n + 1)));
      } else {
        totals := Put(totals, isl, b.(female := SumCount(b.female.sum + depVal, b.female.n + 1)));
      }
    }
    r := Ok(totals);
  }

  /** The second loop (lines 118-122). */
  method Summarise(totals: Buckets) returns (result: Dict<SexMeans>)
    requires forall k :: k in totals.keys ==> k in totals.values
    ensures result == Summarised(totals.keys, totals.values)
  {
    result := Empty();
    var j := 0;
    while j < |totals.keys|
      invariant 0 <= j <= |totals.keys|
      invariant result == Summarised(totals.keys[..j], totals.values)
    {
      var isl := totals.keys[j];
      var bySex := totals.values[isl];
      var male := if bySex.male.n != 0 then bySex.male.sum / bySex.male.n as real else 0.0;
      var female := if bySex.female.n != 0 then bySex.female.sum / bySex.female.n as real else 0.0;
      assert totals.keys[..j + 1][..j] == totals.keys[..j];
      result := Put(result, isl, SexMeans(male, female));
      j := j + 1;
    }
    TakeAll(totals.keys);
  }

  // ----- steps of the loops -----

  /** One species of the outer loop: its rows continue the tally, and a
      failure among them is the failure of the whole table. */
  lemma SpeciesStep(d: Table, s: nat, num: string -> Option<real>, step: Result<Buckets, BillError>)
    requires WellFormed(d) && s < |d.keys|
    requires step == Totals(SightingsUpTo(d.keys, d.values, s) + SightingsOf(d.values[d.keys[s]]), num)
    ensures step.Err? ==> AvgBillDepth(d, num) == Err(step.error)
    ensures step.Ok? ==> Totals(SightingsUpTo(d.keys, d.values, s + 1), num) == step
  {
    if step.Err? {
      ErrStaysOver(d.keys, d.values, s + 1, |d.keys|, num);
    }
  }

  /** After the last species the tally is that of every row, and the second
      loop is all that remains. */
  lemma AllTallied(d: Table, num: string -> Option<real>, totals: Buckets)
    requires WellFormed(d) && Totals(SightingsUpTo(d.keys, d.values, |d.keys|), num) == Ok(totals)
    ensures totals.Valid() && AvgBillDepth(d, num) == Ok(Summarised(totals.keys, totals.values))
  {
    TotalsValid(AllSightings(d), num);
  }

  /** One row of the inner loop. */
  lemma RowStep(done: seq<Sighting>, ys: seq<Sighting>, i: nat, num: string -> Option<real>,
                t: Buckets, step: Result<Buckets, BillError>)
    requires i < |ys| && Totals(done + ys[..i], num) == Ok(t)
    requires step == Tally(t, ys[i], num)
    ensures step.Err? ==> Totals(done + ys, num) == step
    ensures step.Ok? ==> Totals(done + ys[..i + 1], num) == step
  {
    AppendTakeSnoc(done, ys, i);
    TotalsSnoc(done + ys[..i], ys[i], num);
    if step.Err? {
      AppendSplit(done, ys, i + 1);
      ErrSticks(done + ys[..i + 1], ys[i + 1..], num);
    }
  }

  lemma TotalsSnoc(xs: seq<Sighting>, x: Sighting, num: string -> Option<real>)
    ensures Totals(xs + [x], num) == match Totals(xs, num) case Err(e) => Err(e) case Ok(t) => Tally(t, x, num)
  {
    assert (xs + [x])[..|xs|] == xs;
  }

  /** After a depth fails to parse, later rows cannot change the outcome. */
  lemma {:induction false} ErrSticks(a: seq<Sighting>, b: seq<Sighting>, num: string -> Option<real>)
    requires Totals(a, num).Err?
    ensures Totals(a + b, num) == Totals(a, num)
    decreases |b|
  {
    if b == [] {
      assert a + b == a;
    } else {
      assert (a + b)[..|a + b| - 1] == a + b[..|b| - 1];
      ErrSticks(a, b[..|b| - 1], num);
    }
  }

  /** Once a depth has failed, the species after it keep the failure. */
  lemma {:induction false} ErrStaysOver(keys: seq<string>, values: map<string, Record>, s: nat, n: nat, num: string -> Option<real>)
    requires Covers(keys, values) && s <= n <= |keys|
    requires Totals(SightingsUpTo(keys, values, s), num).Err?
    ensures Totals(SightingsUpTo(keys, values, n), num) == Totals(SightingsUpTo(keys, values, s), num)
    decreases n
  {
    if n > s {
      ErrStaysOver(keys, values, s, n - 1, num);
      ErrSticks(SightingsUpTo(keys, values, n - 1), SightingsOf(values[keys[n - 1]]), num);
    }
  }

  // ----- properties -----

  lemma QualifyingIslandsSnoc(xs: seq<Sighting>, x: Sighting)
    ensures QualifyingIslands(xs + [x]) == if Qualifies(x) then QualifyingIslands(xs) + [x.island] else QualifyingIslands(xs)
  {
    assert (xs + [x])[..|xs|] == xs;
    assert QualifyingIslands(xs) + [] == QualifyingIslands(xs);
  }

  lemma DepthsOfLast(xs: seq<Sighting>, num: string -> Option<real>, isl: string, key: string)
    requires xs != []
    ensures var x := xs[|xs| - 1];
      DepthsOf(xs, num, isl, key) ==
        if Qualifies(x) && x.island == isl && Lower(x.sex) == key && num(x.depth).Some?
        then DepthsOf(xs[..|xs| - 1], num, isl, key) + [num(x.depth).value] else DepthsOf(xs[..|xs| - 1], num, isl, key)
  {
    var ds := DepthsOf(xs[..|xs| - 1], num, isl, key);
    assert ds + [] == ds;
  }

  /** Counting a row adds its island at the end if it has no bucket yet. */
  lemma CountKeys(t: Buckets, x: Sighting, v: real)
    ensures Count(t, x, v).keys == if x.island in t.values then t.keys else t.keys + [x.island]
    ensures forall isl :: isl in Count(t, x, v).values <==> isl in t.values || isl == x.island
  {
  }

  /** Counting a row adds its depth to the bucket of its island and
      lower-cased sex, which starts empty on the island's first row, and
      leaves every other bucket alone. */
  lemma CountEntry(t: Buckets, x: Sighting, v: real, isl: string, key: string)
    requires key == "male" || key == "female"
    requires isl in Count(t, x, v).values
    ensures var before := if isl in t.values then Pick(t.values[isl], key) else Pick(NewBucket, key);
      Pick(Count(t, x, v).values[isl], key) ==
        if isl == x.island && Lower(x.sex) == key then SumCount(before.sum + v, before.n + 1) else before
  {
  }

  /** The buckets are a valid dict, so the second loop can look every key up. */
  lemma TotalsValid(xs: seq<Sighting>, num: string -> Option<real>)
    requires Totals(xs, num).Ok?
    ensures Totals(xs, num).value.Valid()
  {
    TotalsKeys(xs, num);
    TotalsDomain(xs, num);
  }

  /** Lines 106-110: an island has a bucket exactly when some qualifying row
      names it, whatever that row's sex. */
  lemma {:induction false} TotalsDomain(xs: seq<Sighting>, num: string -> Option<real>)
    requires Totals(xs, num).Ok?
    ensures forall isl :: isl in Totals(xs, num).value.values <==> isl in QualifyingIslands(xs)
  {
    if xs != [] {
      var init, x := xs[..|xs| - 1], xs[|xs| - 1];
      assert xs == init + [x];
      TotalsSnoc(init, x, num);
      TotalsDomain(init, num);
      QualifyingIslandsSnoc(init, x);
      if Qualifies(x) && num(x.depth).Some? {
        CountKeys(Totals(init, num).value, x, num(x.depth).value);
      }
    }
  }

  /** Buckets are listed in order of the first qualifying row of each island. */
  lemma {:induction false} TotalsKeys(xs: seq<Sighting>, num: string -> Option<real>)
    requires Totals(xs, num).Ok?
    ensures Totals(xs, num).value.keys == Distinct(QualifyingIslands(xs))
  {
    if xs != [] {
      var init, x := xs[..|xs| - 1], xs[|xs| - 1];
      assert xs == init + [x];
      TotalsSnoc(init, x, num);
      TotalsKeys(init, num);
      TotalsDomain(init, num);
      QualifyingIslandsSnoc(init, x);
      if Qualifies(x) && num(x.depth).Some? {
        CountKeys(Totals(init, num).value, x, num(x.depth).value);
        DistinctSnoc(QualifyingIslands(init), x.island);
      }
    }
  }

  /** An island no qualifying row names has no depths. */
  lemma {:induction false} DepthsOfAbsent(xs: seq<Sighting>, num: string -> Option<real>, isl: string, key: string)
    requires isl !in QualifyingIslands(xs)
    ensures DepthsOf(xs, num, isl, key) == []
  {
    if xs != [] {
      DepthsOfAbsent(xs[..|xs| - 1], num, isl, key);
    }
  }

  /** One row's effect on the bucket of island `isl` and sex `key`. */
  lemma TallyEntry(u: Buckets, x: Sighting, num: string -> Option<real>, isl: string, key: string)
    requires key == "male" || key == "female"
    requires Tally(u, x, num).Ok? && isl in Tally(u, x, num).value.values
    ensures isl !in u.values ==> Qualifies(x) && isl == x.island
    ensures var before := if isl in u.values then Pick(u.values[isl], key) else Pick(NewBucket, key);
      Pick(Tally(u, x, num).value.values[isl], key) ==
        if Qualifies(x) && isl == x.island && Lower(x.sex) == key
        then SumCount(before.sum + num(x.depth).value, before.n + 1) else before
  {
    if Qualifies(x) {
      CountKeys(u, x, num(x.depth).value);
      CountEntry(u, x, num(x.depth).value, isl, key);
    }
  }

  /** Lines 112-115: each bucket holds the sum and the number of the depths
      of the qualifying rows, of every species, on its island with that
      lower-cased sex. */
  lemma {:induction false} TotalsTally(xs: seq<Sighting>, num: string -> Option<real>, isl: string, key: string)
    requires key == "male" || key == "female"
    requires Totals(xs, num).Ok? && isl in Totals(xs, num).value.values
    ensures var ds := DepthsOf(xs, num, isl, key);
      Pick(Totals(xs, num).value.values[isl], key) == SumCount(Sum(ds), |ds|)
  {
    var init, x := xs[..|xs| - 1], xs[|xs| - 1];
    var u := Totals(init, num).value;
    TallyEntry(u, x, num, isl, key);
    DepthsOfLast(xs, num, isl, key);
    var ds0 := DepthsOf(init, num, isl, key);
    if isl in u.values {
      TotalsTally(init, num, isl, key);
    } else {
      TotalsDomain(init, num);
      DepthsOfAbsent(init, num, isl, key);
    }
    if Qualifies(x) && isl == x.island && Lower(x.sex) == key {
      SumSnoc(ds0, num(x.depth).value);
    }
  }

  /** The tally fails exactly when some qualifying row's depth does not
      parse, and names the first such depth. */
  lemma {:induction false} TotalsFails(xs: seq<Sighting>, num: string -> Option<real>)
    ensures Totals(xs, num).Err? <==> FirstBadDepth(xs, num).Some?
    ensures Totals(xs, num).Err? ==> Totals(xs, num).error == BadDepth(FirstBadDepth(xs, num).value)
  {
    if xs != [] {
      TotalsFails(xs[..|xs| - 1], num);
    }
  }

  /** The second loop keeps the islands in order, one entry each. */
  lemma {:induction false} SummarisedKeys(keys: seq<string>, values: map<string, BySex>)
    requires NoDuplicates(keys) && forall k :: k in keys ==> k in values
    ensures Summarised(keys, values).keys == keys
    ensures forall k :: k in Summarised(keys, values).values <==> k in keys
  {
    if keys != [] {
      var init := keys[..|keys| - 1];
      assert keys == init + [keys[|keys| - 1]];
      SummarisedKeys(init, values);
    }
  }

  /** Each island's entry holds the two means of its bucket, 0.0 for a sex
      with no rows. */
  lemma {:induction false} SummarisedEntry(keys: seq<string>, values: map<string, BySex>, k: string)
    requires forall j :: j in keys ==> j in values
    requires k in keys
    ensures k in Summarised(keys, values).values
    ensures Summarised(keys, values).values[k] == SexMeans(MeanOf(values[k].male), MeanOf(values[k].female))
  {
    var init, last := keys[..|keys| - 1], keys[|keys| - 1];
    assert keys == init + [last];
    if k != last {
      SummarisedEntry(init, values, k);
    }
  }

  /** The result: it fails exactly when a qualifying row's depth does not
      parse; otherwise its keys are the islands of the qualifying rows of all
      species, in order of first appearance, and each island maps to the mean
      depth of its qualifying male and female rows, 0.0 where there are
      none. */
  lemma AvgBillDepthMeans(d: Table, num: string -> Option<real>)
    requires WellFormed(d)
    ensures var xs := AllSightings(d);
      AvgBillDepth(d, num).Err? <==> FirstBadDepth(xs, num).Some?
    ensures var xs := AllSightings(d);
      AvgBillDepth(d, num).Ok? ==> AvgBillDepth(d, num).value.keys == Distinct(QualifyingIslands(xs))
    ensures var xs := AllSightings(d);
      AvgBillDepth(d, num).Ok? ==>
        forall isl :: isl in AvgBillDepth(d, num).value.values <==> isl in QualifyingIslands(xs)
    ensures var xs := AllSightings(d);
      AvgBillDepth(d, num).Ok? ==>
        forall isl :: isl in AvgBillDepth(d, num).value.values ==>
          AvgBillDepth(d, num).value.values[isl] ==
            SexMeans(MeanOrZero(DepthsOf(xs, num, isl, "male")), MeanOrZero(DepthsOf(xs, num, isl, "female")))
  {
    var xs := AllSightings(d);
    TotalsFails(xs, num);
    if Totals(xs, num).Ok? {
      var t := Totals(xs, num).value;
      TotalsValid(xs, num);
      TotalsKeys(xs, num);
      TotalsDomain(xs, num);
      SummarisedKeys(t.keys, t.values);
      forall isl | isl in t.keys
        ensures Summarised(t.keys, t.values).values[isl] ==
          SexMeans(MeanOrZero(DepthsOf(xs, num, isl, "male")), MeanOrZero(DepthsOf(xs, num, isl, "female")))
      {
        SummarisedEntry(t.keys, t.values, isl);
        TotalsTally(xs, num, isl, "male");
        TotalsTally(xs, num, isl, "female");
      }
    }
  }

  /** Without a qualifying row there are no islands. */
  lemma {:induction false} NoQualifyingRows(xs: seq<Sighting>, num: string -> Option<real>)
    requires forall i :: 0 <= i < |xs| ==> !Qualifies(xs[i])
    ensures QualifyingIslands(xs) == [] && FirstBadDepth(xs, num) == None
  {
    if xs != [] {
      var init := xs[..|xs| - 1];
      assert forall i :: 0 <= i < |init| ==> init[i] == xs[i];
      NoQualifyingRows(init, num);
    }
  }

  /** A table without a qualifying row, the empty table among them, gives
      an empty result. */
  lemma NothingQualifies(d: Table, num: string -> Option<real>)
    requires WellFormed(d)
    requires forall i :: 0 <= i < |AllSightings(d)| ==> !Qualifies(AllSightings(d)[i])
    ensures AvgBillDepth(d, num) == Ok(Empty())
  {
    NoQualifyingRows(AllSightings(d), num);
    AvgBillDepthMeans(d, num);
    var r := AvgBillDepth(d, num).value;
    assert r.values == map[];
  }

  /** Lines 101-110 with a sex of "NA": the row is not counted, yet its island
      gets a bucket and the result lists it with two zero means. */
  lemma UnclassifiedSexExample(num: string -> Option<real>)
    requires num("18.2") == Some(18.2)
    ensures var rec := Record(["4000"], ["40.0"], ["190"], ["18.2"], ["Dream"], ["NA"]);
      var d := Dict(["Adelie"], map["Adelie" := rec]);
      WellFormed(d) && AvgBillDepth(d, num) == Ok(Dict(["Dream"], map["Dream" := SexMeans(0.0, 0.0)]))
  {
    var rec := Record(["4000"], ["40.0"], ["190"], ["18.2"], ["Dream"], ["NA"]);
    var d := Dict(["Adelie"], map["Adelie" := rec]);
    var x := Sighting("Dream", "NA", "18.2");
    assert SightingsOf(rec) == [x];
    assert AllSightings(d) == [x] by {
      assert SightingsUpTo(d.keys, d.values, 0) == [];
    }
    assert Lower("NA") == "na";
    var t := Dict(["Dream"], map["Dream" := NewBucket]);
    assert Count(Empty(), x, 18.2) == t;
    assert Totals([x], num) == Ok(t) by {
      assert [x][..0] == [];
    }
    assert Summarised(t.keys, t.values) == Dict(["Dream"], map["Dream" := SexMeans(0.0, 0.0)]) by {
      assert t.keys[..0] == [];
    }
  }

  /** Lines 91-115: rows of different species on the same island and sex
      share one bucket; 18.0 and 20.0 from two species average to 19.0,
      whatever the case of the sex cell. */
  lemma SpeciesMergeExample(num: string -> Option<real>)
    requires num("18.0") == Some(18.0) && num("20.0") == Some(20.0)
    ensures var a := Record(["3750"], ["39.1"], ["181"], ["18.0"], ["Biscoe"], ["MALE"]);
      var g := Record(["5000"], ["47.0"], ["215"], ["20.0"], ["Biscoe"], ["male"]);
      var d := Dict(["Adelie", "Gentoo"], map["Adelie" := a, "Gentoo" := g]);
      WellFormed(d) && AvgBillDepth(d, num) == Ok(Dict(["Biscoe"], map["Biscoe" := SexMeans(19.0, 0.0)]))
  {
    var a := Record(["3750"], ["39.1"], ["181"], ["18.0"], ["Biscoe"], ["MALE"]);
    var g := Record(["5000"], ["47.0"], ["215"], ["20.0"], ["Biscoe"], ["male"]);
    var d := Dict(["Adelie", "Gentoo"], map["Adelie" := a, "Gentoo" := g]);
    MergeRows();
    var t2 := Dict(["Biscoe"], map["Biscoe" := BySex(SumCount(38.0, 2), SumCount(0.0, 0))]);
    MergeTally(num);
    assert Summarised(t2.keys, t2.values) == Dict(["Biscoe"], map["Biscoe" := SexMeans(19.0, 0.0)]) by {
      assert t2.keys[..0] == [];
    }
  }

  lemma MergeTally(num: string -> Option<real>)
    requires num("18.0") == Some(18.0) && num("20.0") == Some(20.0)
    ensures var x, y := Sighting("Biscoe", "MALE", "18.0"), Sighting("Biscoe", "male", "20.0");
      Totals([x, y], num) == Ok(Dict(["Biscoe"], map["Biscoe" := BySex(SumCount(38.0, 2), SumCount(0.0, 0))]))
  {
    var x, y := Sighting("Biscoe", "MALE", "18.0"), Sighting("Biscoe", "male", "20.0");
    assert Lower("MALE") == "male" && Lower("male") == "male";
    var t1 := Dict(["Biscoe"], map["Biscoe" := BySex(SumCount(18.0, 1), SumCount(0.0, 0))]);
    var t2 := Dict(["Biscoe"], map["Biscoe" := BySex(SumCount(38.0, 2), SumCount(0.0, 0))]);
    assert Count(Empty(), x, 18.0) == t1;
    assert Count(t1, y, 20.0) == t2;
    assert Totals([x], num) == Ok(t1) by {
      assert [x][..0] == [];
    }
    assert [x, y][..1] == [x];
  }

  lemma MergeRows()
    ensures var a := Record(["3750"], ["39.1"], ["181"], ["18.0"], ["Biscoe"], ["MALE"]);
      var g := Record(["5000"], ["47.0"], ["215"], ["20.0"], ["Biscoe"], ["male"]);
      var d := Dict(["Adelie", "Gentoo"], map["Adelie" := a, "Gentoo" := g]);
      WellFormed(d) && AllSightings(d) == [Sighting("Biscoe", "MALE", "18.0"), Sighting("Biscoe", "male", "20.0")]
  {
    var a := Record(["3750"], ["39.1"], ["181"], ["18.0"], ["Biscoe"], ["MALE"]);
    var g := Record(["5000"], ["47.0"], ["215"], ["20.0"], ["Biscoe"], ["male"]);
    var d := Dict(["Adelie", "Gentoo"], map["Adelie" := a, "Gentoo" := g]);
    var x, y := Sighting("Biscoe", "MALE", "18.0"), Sighting("Biscoe", "male", "20.0");
    assert SightingsOf(a) == [x];
    assert SightingsOf(g) == [y];
    assert SightingsUpTo(d.keys, d.values, 0) == [];
    assert SightingsUpTo(d.keys, d.values, 1) == [x];
  }
}
