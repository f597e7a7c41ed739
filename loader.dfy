/** `load_penguins` (penguin_analysis.py:9-54): the header lookup and the loop
    that groups data rows by species into six parallel lists. The CSV file is
    given as rows already split into cells, as `csv.reader` yields them. */
module Loader {
  import opened Wrappers
  import opened Seqs
  import opened Text
  import opened Dicts

  /** One species' entry: six lists, index i of each holding row i's cell. */
  datatype Record = Record(masses: seq<string>, bills: seq<string>, flippers: seq<string>,
                           depths: seq<string>, islands: seq<string>, sex: seq<string>)
  {
    /** The six lists have the same length. */
    predicate Aligned()
    {
      && |bills| == |masses| && |flippers| == |masses| && |depths| == |masses|
      && |islands| == |masses| && |sex| == |masses|
    }

    /** Each of the six lists of `this` begins with the one of `other`. */
    predicate Extends(other: Record)
    {
      && other.masses <= masses && other.bills <= bills && other.flippers <= flippers
      && other.depths <= depths && other.islands <= islands && other.sex <= sex
    }
  }

  /** The entry created on a species' first row (lines 38-45). */
  const EmptyRecord: Record := Record([], [], [], [], [], [])

  /** The species table: species name to record, in first-seen order. */
  type Table = Dict<Record>

  /** What the loader returns, and what the aggregations rely on. */
  ghost predicate WellFormed(t: Table)
  {
    t.Valid() && forall s :: s in t.values ==> t.values[s].Aligned()
  }

  /** The seven normalised cells the loop reads from one data row. */
  datatype Observation = Observation(species: string, mass: string, bill: string, flipper: string,
                                     depth: string, island: string, sex: string)

  /** The six appends of lines 47-52. */
  function Append(rec: Record, o: Observation): Record
  {
    Record(rec.masses + [o.mass], rec.bills + [o.bill], rec.flippers + [o.flipper],
           rec.depths + [o.depth], rec.islands + [o.island], rec.sex + [o.sex])
  }

  /** The record whose lists hold `obs`, in order: index i of every list
      comes from observation i. */
  function RecordOf(obs: seq<Observation>): (rec: Record)
    ensures rec.Aligned() && |rec.masses| == |obs|
  {
    if obs == [] then EmptyRecord else Append(RecordOf(obs[..|obs| - 1]), obs[|obs| - 1])
  }

  function SpeciesOf(obs: seq<Observation>): seq<string>
  {
    seq(|obs|, i requires 0 <= i < |obs| => obs[i].species)
  }

  /** The observations of species `s`, in file order. */
  function OfSpecies(obs: seq<Observation>, s: string): seq<Observation>
  {
    if obs == [] then []
    else
      var last := obs[|obs| - 1];
      OfSpecies(obs[..|obs| - 1], s) + (if last.species == s then [last] else [])
  }

  /** The loop body of lines 37-52 on the table built so far: a species
      seen for the first time is appended to the keys with an empty entry,
      then the row's six cells are appended to its species' lists. */
  function Insert(t: Table, o: Observation): Table
  {
    var base := if o.species in t.values then t else Dict(t.keys + [o.species], t.values[o.species := EmptyRecord]);
    Dict(base.keys, base.values[o.species := Append(base.values[o.species], o)])
  }

  /** The table the loop builds from the rows `obs`. What it holds is
      stated by `GroupedKeys`, `GroupedDomain` and `GroupedEntry`. */
  function Grouped(obs: seq<Observation>): Table
  {
    if obs == [] then Empty() else Insert(Grouped(obs[..|obs| - 1]), obs[|obs| - 1])
  }

  // ----- the header (lines 17-24) -----

  /** `[h.strip().strip('"') for h in cells]` */
  function NormalizeAll(cells: seq<string>): seq<string>
  {
    seq(|cells|, i requires 0 <= i < |cells| => Normalize(cells[i]))
  }

  /** The seven column names, in the order the source looks them up. */
  const Required: seq<string> :=
    ["species", "body_mass_g", "bill_length_mm", "flipper_length_mm", "bill_depth_mm", "island", "sex"]

  /** Positions of the seven columns in the header. */
  datatype Columns = Columns(species: nat, mass: nat, bill: nat, flipper: nat,
                             depth: nat, island: nat, sex: nat)
  {
    /** Indexing `row` at every column position succeeds. */
    predicate Fits(row: seq<string>)
    {
      && species < |row| && mass < |row| && bill < |row| && flipper < |row|
      && depth < |row| && island < |row| && sex < |row|
    }
  }

  /** The loader's failures: `rows[0]` on an empty file, `header.index` on a
      missing column, `row[idx]` on a data row that is too short, given by its
      index among the CSV rows (the header row is 0). */
  datatype LoadError = EmptyInput | MissingColumn(name: string) | ShortRow(row: nat)

  /** `k` is where `header.index(name)` finds `name`. */
  predicate FirstAt(header: seq<string>, name: string, k: nat)
  {
    k < |header| && header[k] == name && name !in header[..k]
  }

  /** `header.index(name)` for each of `names` in turn, as lines 18-24 do;
      the first name missing from the header stops the lookup, and the
      error is its position in `names`. */
  function Lookup(header: seq<string>, names: seq<string>): (r: Result<seq<nat>, nat>)
    ensures r.Ok? ==> |r.value| == |names|
    ensures r.Ok? ==> forall k :: 0 <= k < |names| ==> FirstAt(header, names[k], r.value[k])
    ensures r.Err? ==> r.error < |names| && names[r.error] !in header
    ensures r.Err? ==> forall j :: 0 <= j < r.error ==> names[j] in header
  {
    if names == [] then Ok([])
    else
      match Find(header, names[0])
      case None => Err(0)
      case Some(p) =>
        var rest := names[1..];
        assert forall k :: 1 <= k < |names| ==> names[k] == rest[k - 1];
        match Lookup(header, rest)
        case Err(k) => Err(k + 1)
        case Ok(ps) => Ok([p] + ps)
  }

  /** Lines 18-24: the seven column positions; the first required name
      missing from the header aborts the load. */
  function FindColumns(header: seq<string>): (r: Result<Columns, LoadError>)
    ensures r.Ok? <==> forall k :: 0 <= k < |Required| ==> Required[k] in header
    ensures r.Err? ==> exists k :: (0 <= k < |Required| && r.error == MissingColumn(Required[k])
                                    && Required[k] !in header && forall j :: 0 <= j < k ==> Required[j] in header)
    ensures r.Ok? ==>
      && FirstAt(header, "species", r.value.species) && FirstAt(header, "body_mass_g", r.value.mass)
      && FirstAt(header, "bill_length_mm", r.value.bill) && FirstAt(header, "flipper_length_mm", r.value.flipper)
      && FirstAt(header, "bill_depth_mm", r.value.depth) && FirstAt(header, "island", r.value.island)
      && FirstAt(header, "sex", r.value.sex)
  {
    match Lookup(header, Required)
    case Err(k) => Err(MissingColumn(Required[k]))
    case Ok(p) => Ok(Columns(p[0], p[1], p[2], p[3], p[4], p[5], p[6]))
  }

  // ----- the data rows (lines 28-52) -----

  /** Lines 29-35: the seven normalised cells of one data row. */
  function ObservationAt(row: seq<string>, cols: Columns): Observation
    requires cols.Fits(row)
  {
    Observation(Normalize(row[cols.species]), Normalize(row[cols.mass]), Normalize(row[cols.bill]),
                Normalize(row[cols.flipper]), Normalize(row[cols.depth]), Normalize(row[cols.island]),
                Normalize(row[cols.sex]))
  }

  /** Every row of `data` is long enough for the column positions. */
  predicate AllFit(data: seq<seq<string>>, cols: Columns)
  {
    forall i :: 0 <= i < |data| ==> cols.Fits(data[i])
  }

  function Observations(data: seq<seq<string>>, cols: Columns): seq<Observation>
    requires AllFit(data, cols)
  {
    if data == [] then []
    else Observations(data[..|data| - 1], cols) + [ObservationAt(data[|data| - 1], cols)]
  }

  /** The first data row at or after `from` that is too short for the
      column positions, if any. */
  function FirstShortRow(rows: seq<seq<string>>, cols: Columns, from: nat): (r: Option<nat>)
    requires from <= |rows|
    ensures r.None? <==> AllFit(rows[from..], cols)
    ensures r.Some? ==> from <= r.value < |rows| && !cols.Fits(rows[r.value])
    ensures r.Some? ==> AllFit(rows[from..r.value], cols)
    decreases |rows| - from
  {
    if from == |rows| then None
    else if !cols.Fits(rows[from]) then Some(from)
    else FirstShortRow(rows, cols, from + 1)
  }

  /** What `load_penguins` yields for the rows of a CSV file: the header
      alone decides a missing column, before any data row is looked at; then
      the first short data row fails, and otherwise the result is the
      grouping of all data rows by species. */
  function Loaded(rows: seq<seq<string>>): Result<Table, LoadError>
  {
    if rows == [] then Err(EmptyInput)
    else
      match FindColumns(NormalizeAll(rows[0]))
      case Err(e) => Err(e)
      case Ok(cols) => GroupedRows(rows, cols)
  }

  /** The data rows' part of `Loaded`, once the columns are known. */
  function GroupedRows(rows: seq<seq<string>>, cols: Columns): Result<Table, LoadError>
    requires 1 <= |rows|
  {
    match FirstShortRow(rows, cols, 1)
    case Some(k) => Err(ShortRow(k))
    case None => Ok(Grouped(Observations(rows[1..], cols)))
  }

  /** Lines 13-54 without the file access: normalise the header, find the
      seven columns, then walk the data rows, creating a species' entry on
      its first row and appending the row's six cells to its lists. */
  method LoadPenguins(rows: seq<seq<string>>) returns (r: Result<Table, LoadError>)
    ensures r == Loaded(rows)
  {
    if rows == [] {
      return Err(EmptyInput);
    }
    var header := NormalizeAll(rows[0]);
    var found := FindColumns(header);
    if found.Err? {
      return Err(found.error);
    }
    r := GroupRows(rows, found.value);
  }

  /** Lines 28-52: walk the data rows, creating a species' entry on its
      first row and appending the row's six cells to its lists. */
  method GroupRows(rows: seq<seq<string>>, cols: Columns) returns (r: Result<Table, LoadError>)
    requires 1 <= |rows|
    ensures r == GroupedRows(rows, cols)
  {
    var keys: seq<string> := [];
    var entries: map<string, Record> := map[];
    var i := 1;
    while i < |rows|
      invariant 1 <= i <= |rows|
      invariant AllFit(rows[1..i], cols)
      invariant Dict(keys, entries) == Grouped(Observations(rows[1..i], cols))
    {
      var row := rows[i];
      if !cols.Fits(row) {
        ShortRowFound(rows, cols, 1, i);
        return Err(ShortRow(i));
      }
      var o := ObservationAt(row, cols);
      ObservationsSnoc(rows, cols, i);
      GroupedSnoc(Observations(rows[1..i], cols), o);
      if o.species !in entries {
        keys := keys + [o.species];
        entries := entries[o.species := EmptyRecord];
      }
      var rec := entries[o.species];
      entries := entries[o.species := Record(rec.masses + [o.mass], rec.bills + [o.bill], rec.flippers + [o.flipper],
                                             rec.depths + [o.depth], rec.islands + [o.island], rec.sex + [o.sex])];
      i := i + 1;
    }
    AllRowsRead(rows);
    r := Ok(Dict(keys, entries));
  }

  /** When the loop stops it has read every data row. */
  lemma AllRowsRead(rows: seq<seq<string>>)
    requires 1 <= |rows|
    ensures rows[1..|rows|] == rows[1..]
  {
  }

  /** A short row after rows that all fit is the first short row. */
  lemma {:induction false} ShortRowFound(rows: seq<seq<string>>, cols: Columns, from: nat, i: nat)
    requires from <= i < |rows| && AllFit(rows[from..i], cols) && !cols.Fits(rows[i])
    ensures FirstShortRow(rows, cols, from) == Some(i)
    decreases i - from
  {
    if from < i {
      assert rows[from] == rows[from..i][0];
      assert rows[from + 1..i] == rows[from..i][1..];
      ShortRowFound(rows, cols, from + 1, i);
    }
  }

  /** One more data row adds one observation at the end. */
  lemma ObservationsSnoc(rows: seq<seq<string>>, cols: Columns, i: nat)
    requires 1 <= i < |rows| && AllFit(rows[1..i], cols) && cols.Fits(rows[i])
    ensures AllFit(rows[1..i + 1], cols)
    ensures Observations(rows[1..i + 1], cols) == Observations(rows[1..i], cols) + [ObservationAt(rows[i], cols)]
  {
    assert rows[1..i + 1] == rows[1..i] + [rows[i]];
    assert rows[1..i + 1][..i - 1] == rows[1..i];
  }

  // ----- properties of the grouping -----

  /** One more row is one more step of the loop. */
  lemma GroupedSnoc(obs: seq<Observation>, o: Observation)
    ensures Grouped(obs + [o]) == Insert(Grouped(obs), o)
  {
    assert (obs + [o])[..|obs|] == obs;
  }

  /** A species that has not been seen has no rows. */
  lemma {:induction false} OfUnseenSpecies(obs: seq<Observation>, s: string)
    requires s !in SpeciesOf(obs)
    ensures OfSpecies(obs, s) == []
  {
    if obs != [] {
      var init, last := obs[..|obs| - 1], obs[|obs| - 1];
      assert SpeciesOf(init) == SpeciesOf(obs)[..|obs| - 1];
      assert last.species == SpeciesOf(obs)[|obs| - 1];
      OfUnseenSpecies(init, s);
    }
  }

  lemma SpeciesOfSnoc(obs: seq<Observation>, o: Observation)
    ensures SpeciesOf(obs + [o]) == SpeciesOf(obs) + [o.species]
  {
  }

  lemma OfSpeciesSnoc(obs: seq<Observation>, o: Observation, s: string)
    ensures OfSpecies(obs + [o], s) == OfSpecies(obs, s) + (if o.species == s then [o] else [])
  {
    assert (obs + [o])[..|obs|] == obs;
  }

  lemma RecordOfSnoc(obs: seq<Observation>, o: Observation)
    ensures RecordOf(obs + [o]) == Append(RecordOf(obs), o)
  {
    assert (obs + [o])[..|obs|] == obs;
  }

  /** The table has an entry exactly for the species that occur. */
  lemma {:induction false} GroupedDomain(obs: seq<Observation>)
    ensures forall s :: s in Grouped(obs).values <==> s in SpeciesOf(obs)
  {
    if obs != [] {
      var init, o := obs[..|obs| - 1], obs[|obs| - 1];
      assert obs == init + [o];
      GroupedDomain(init);
      SpeciesOfSnoc(init, o);
    }
  }

  /** The keys list every species once, in order of first appearance. */
  lemma {:induction false} GroupedKeys(obs: seq<Observation>)
    ensures Grouped(obs).keys == Distinct(SpeciesOf(obs))
  {
    if obs != [] {
      var init, o := obs[..|obs| - 1], obs[|obs| - 1];
      assert obs == init + [o];
      GroupedKeys(init);
      GroupedDomain(init);
      SpeciesOfSnoc(init, o);
      DistinctSnoc(SpeciesOf(init), o.species);
    }
  }

  /** A species' entry holds exactly that species' rows, in file order. */
  lemma {:induction false} GroupedEntry(obs: seq<Observation>, s: string)
    requires s in SpeciesOf(obs)
    ensures s in Grouped(obs).values && Grouped(obs).values[s] == RecordOf(OfSpecies(obs, s))
  {
    var init, o := obs[..|obs| - 1], obs[|obs| - 1];
    assert obs == init + [o];
    GroupedDomain(init);
    SpeciesOfSnoc(init, o);
    OfSpeciesSnoc(init, o, s);
    if s in SpeciesOf(init) {
      GroupedEntry(init, s);
      if s == o.species {
        RecordOfSnoc(OfSpecies(init, s), o);
      } else {
        assert OfSpecies(init, s) + [] == OfSpecies(init, s);
        assert Grouped(obs).values[s] == Grouped(init).values[s];
      }
    } else {
      OfUnseenSpecies(init, s);
      assert OfSpecies(obs, s) == [] + [o];
      RecordOfSnoc([], o);
    }
  }

  /** The table is a valid dict of aligned records. */
  lemma GroupedWellFormed(obs: seq<Observation>)
    ensures WellFormed(Grouped(obs))
  {
    GroupedKeys(obs);
    GroupedDomain(obs);
    forall s | s in Grouped(obs).values
      ensures Grouped(obs).values[s].Aligned()
    {
      GroupedEntry(obs, s);
    }
  }

  /** How many rows the lists of the species `keys` hold together. */
  function RowsOver(keys: seq<string>, values: map<string, Record>): nat
    requires forall k :: k in keys ==> k in values
  {
    if keys == [] then 0 else RowsOver(keys[..|keys| - 1], values) + |values[keys[|keys| - 1]].masses|
  }

  /** Replacing an entry outside `keys` leaves their row count alone. */
  lemma {:induction false} RowsOverUnaffected(keys: seq<string>, values: map<string, Record>, s: string, rec: Record)
    requires forall k :: k in keys ==> k in values
    requires s !in keys
    ensures RowsOver(keys, values[s := rec]) == RowsOver(keys, values)
  {
    if keys != [] {
      RowsOverUnaffected(keys[..|keys| - 1], values, s, rec);
    }
  }

  /** Growing one listed entry by a row grows the row count by one. */
  lemma {:induction false} RowsOverGrow(keys: seq<string>, values: map<string, Record>, s: string, rec: Record)
    requires forall k :: k in keys ==> k in values
    requires NoDuplicates(keys) && s in keys
    requires |rec.masses| == |values[s].masses| + 1
    ensures RowsOver(keys, values[s := rec]) == RowsOver(keys, values) + 1
  {
    var init, last := keys[..|keys| - 1], keys[|keys| - 1];
    assert keys == init + [last];
    if last == s {
      assert s !in init;
      RowsOverUnaffected(init, values, s, rec);
    } else {
      RowsOverGrow(init, values, s, rec);
    }
  }

  /** Every data row lands in exactly one species' lists: the list lengths,
      summed over the species, give the number of rows. */
  lemma {:induction false} GroupedCountsEveryRow(obs: seq<Observation>)
    ensures Grouped(obs).Valid()
    ensures RowsOver(Grouped(obs).keys, Grouped(obs).values) == |obs|
  {
    if obs != [] {
      var init, o := obs[..|obs| - 1], obs[|obs| - 1];
      GroupedCountsEveryRow(init);
      var t, s := Grouped(init), o.species;
      if s in t.values {
        RowsOverGrow(t.keys, t.values, s, Append(t.values[s], o));
      } else {
        var keys' := t.keys + [s];
        assert keys'[..|keys'| - 1] == t.keys;
        RowsOverUnaffected(t.keys, t.values, s, EmptyRecord);
        RowsOverUnaffected(t.keys, t.values[s := EmptyRecord], s, Append(EmptyRecord, o));
      }
    }
  }

  /** Later rows only add to what earlier rows built: the species order is
      kept, no entry disappears or is reset, and each entry's lists keep
      their earlier cells as a prefix, so rows stay in file order. */
  lemma {:induction false} GroupedExtends(a: seq<Observation>, b: seq<Observation>)
    ensures Grouped(a).keys <= Grouped(a + b).keys
    ensures forall s :: s in Grouped(a).values ==>
      s in Grouped(a + b).values && Grouped(a + b).values[s].Extends(Grouped(a).values[s])
    decreases |b|
  {
    if b == [] {
      assert a + b == a;
    } else {
      var init, o := b[..|b| - 1], b[|b| - 1];
      assert (a + b)[..|a + b| - 1] == a + init;
      GroupedExtends(a, init);
    }
  }

  /** Index i of each of the six lists comes from the same observation i. */
  lemma {:induction false} RecordOfAt(obs: seq<Observation>, i: nat)
    requires i < |obs|
    ensures var rec := RecordOf(obs);
      && rec.masses[i] == obs[i].mass && rec.bills[i] == obs[i].bill && rec.flippers[i] == obs[i].flipper
      && rec.depths[i] == obs[i].depth && rec.islands[i] == obs[i].island && rec.sex[i] == obs[i].sex
  {
    if i < |obs| - 1 {
      RecordOfAt(obs[..|obs| - 1], i);
    }
  }

  /** Lines 17-24 come before line 28: a header without one of the seven
      columns fails the load whatever data rows follow it. */
  lemma MissingColumnIgnoresData(header: seq<string>, data: seq<seq<string>>)
    requires FindColumns(NormalizeAll(header)).Err?
    ensures Loaded([header] + data) == Err(FindColumns(NormalizeAll(header)).error)
  {
    assert ([header] + data)[0] == header;
  }

  /** Lines 26-28 and 54: a header with every column and no data rows gives
      an empty table. */
  lemma HeaderOnlyIsEmpty(header: seq<string>)
    requires FindColumns(NormalizeAll(header)).Ok?
    ensures Loaded([header]) == Ok(Empty())
  {
    var cols := FindColumns(NormalizeAll(header)).value;
    assert [header][1..] == [];
    assert FirstShortRow([header], cols, 1) == None;
  }

  /** What a successful load yields: a valid table of aligned records whose
      keys are the species in order of first appearance, whose entry for a
      species holds exactly that species' data rows in file order, and
      whose list lengths add up to the number of data rows. */
  lemma LoadedTable(rows: seq<seq<string>>)
    requires Loaded(rows).Ok?
    ensures rows != [] && FindColumns(NormalizeAll(rows[0])).Ok?
    ensures var cols := FindColumns(NormalizeAll(rows[0])).value;
      AllFit(rows[1..], cols)
    ensures var cols := FindColumns(NormalizeAll(rows[0])).value;
      var obs := Observations(rows[1..], cols);
      var t := Loaded(rows).value;
      && WellFormed(t)
      && t.keys == Distinct(SpeciesOf(obs))
      && (forall s :: s in t.values ==> t.values[s] == RecordOf(OfSpecies(obs, s)))
      && RowsOver(t.keys, t.values) == |rows| - 1
  {
    var cols := FindColumns(NormalizeAll(rows[0])).value;
    var obs := Observations(rows[1..], cols);
    GroupedWellFormed(obs);
    GroupedKeys(obs);
    GroupedDomain(obs);
    GroupedCountsEveryRow(obs);
    ObservationsLength(rows[1..], cols);
    forall s | s in Grouped(obs).values
      ensures Grouped(obs).values[s] == RecordOf(OfSpecies(obs, s))
    {
      GroupedEntry(obs, s);
    }
  }

  lemma {:induction false} ObservationsLength(data: seq<seq<string>>, cols: Columns)
    requires AllFit(data, cols)
    ensures |Observations(data, cols)| == |data|
  {
    if data != [] {
      ObservationsLength(data[..|data| - 1], cols);
    }
  }
}
