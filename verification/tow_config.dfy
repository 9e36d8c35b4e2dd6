/** The file-processing simulation's configuration reader
    (Project_Tow/config.c): built-in defaults, then `key=value` lines where
    three keys set an integer range `a,b` and one a real range. Lines keep
    their terminating newline, as `fgets` leaves it. `float` fields are
    `real`. */
module TowConfig {
  import opened CLib
  import opened CScan
  import LineFold

  datatype Config = Config(
    numGenerators: int,
    numCalculators: int,
    inspectorsType1: int,
    inspectorsType2: int,
    inspectorsType3: int,
    genIntervalMin: int,
    genIntervalMax: int,
    rowsMin: int,
    rowsMax: int,
    columnsMin: int,
    columnsMax: int,
    valueMin: real,
    valueMax: real,
    missingPercentage: real,
    thresholdFilesProcessed: int,
    thresholdFilesNotProcessed: int,
    thresholdFilesBackup: int,
    thresholdFilesDeleted: int,
    runtimeLimitMinutes: int,
    type1ThresholdAge: int)

  /** One per field of the record. */
  datatype Field =
    | NumGenerators | NumCalculators | InspectorsType1F | InspectorsType2F | InspectorsType3F
    | GenIntervalMin | GenIntervalMax | RowsMin | RowsMax | ColumnsMin | ColumnsMax
    | ValueMin | ValueMax | MissingPercentageF
    | ThresholdFilesProcessedF | ThresholdFilesNotProcessedF | ThresholdFilesBackupF
    | ThresholdFilesDeletedF | RuntimeLimitMinutesF | Type1ThresholdAgeF

  /** One per recognised key of the file. */
  datatype Key =
    | FileGenerators | Calculators | InspectorsType1 | InspectorsType2 | InspectorsType3
    | GenInterval | Rows | Columns | ValueRange | MissingPercentage
    | ThresholdFilesProcessed | ThresholdFilesNotProcessed | ThresholdFilesBackup
    | ThresholdFilesDeleted | RuntimeLimitMinutes | Type1ThresholdAge

  function KeyName(k: Key): string
  {
    match k
    case FileGenerators => "file_generators"
    case Calculators => "calculators"
    case InspectorsType1 => "inspectors_type1"
    case InspectorsType2 => "inspectors_type2"
    case InspectorsType3 => "inspectors_type3"
    case GenInterval => "gen_interval"
    case Rows => "rows"
    case Columns => "columns"
    case ValueRange => "value_range"
    case MissingPercentage => "missing_percentage"
    case ThresholdFilesProcessed => "threshold_files_processed"
    case ThresholdFilesNotProcessed => "threshold_files_not_processed"
    case ThresholdFilesBackup => "threshold_files_backup"
    case ThresholdFilesDeleted => "threshold_files_deleted"
    case RuntimeLimitMinutes => "runtime_limit_minutes"
    case Type1ThresholdAge => "type1_threshold_age"
  }

  /** The keys in the order of the `strcmp` chain of config.c:52-83. */
  const Keys: seq<Key> := [
    FileGenerators, Calculators, InspectorsType1, InspectorsType2, InspectorsType3,
    GenInterval, Rows, Columns, ValueRange, MissingPercentage,
    ThresholdFilesProcessed, ThresholdFilesNotProcessed, ThresholdFilesBackup,
    ThresholdFilesDeleted, RuntimeLimitMinutes, Type1ThresholdAge]

  /** The key a name selects, if any. */
  function KeyOf(name: string): (r: Option<Key>)
    ensures r.Some? ==> KeyName(r.value) == name
  {
    LineFold.Lookup(name, Keys, KeyName)
  }

  /** No two keys share a name. */
  lemma KeyNameInjective(a: Key, b: Key)
    ensures KeyName(a) == KeyName(b) ==> a == b
  {
  }

  /** Every key is in the table. */
  lemma KeysComplete(k: Key)
    ensures k in Keys
  {
  }

  lemma KeyOfKeyName(k: Key)
    ensures KeyOf(KeyName(k)) == Some(k)
  {
    KeysComplete(k);
    var i :| 0 <= i < |Keys| && Keys[i] == k;
    assert KeyName(Keys[i]) == KeyName(k);
    KeyNameInjective(KeyOf(KeyName(k)).value, k);
  }

  /** The `float` fields. */
  predicate IsRealField(f: Field)
  {
    f.ValueMin? || f.ValueMax? || f.MissingPercentageF?
  }

  /** A key that takes a pair `a,b` and sets a minimum and a maximum. */
  predicate IsRangeKey(k: Key)
  {
    k.GenInterval? || k.Rows? || k.Columns? || k.ValueRange?
  }

  /** The fields a key writes: one, or a range's minimum then maximum. */
  function Targets(k: Key): (fs: seq<Field>)
    ensures |fs| == (if IsRangeKey(k) then 2 else 1)
    ensures |fs| == 2 ==> fs[0] != fs[1]
    ensures forall i :: 0 <= i < |fs| ==> (IsRealField(fs[i]) <==> k.ValueRange? || k.MissingPercentage?)
  {
    match k
    case FileGenerators => [NumGenerators]
    case Calculators => [NumCalculators]
    case InspectorsType1 => [InspectorsType1F]
    case InspectorsType2 => [InspectorsType2F]
    case InspectorsType3 => [InspectorsType3F]
    case GenInterval => [GenIntervalMin, GenIntervalMax]
    case Rows => [RowsMin, RowsMax]
    case Columns => [ColumnsMin, ColumnsMax]
    case ValueRange => [ValueMin, ValueMax]
    case MissingPercentage => [MissingPercentageF]
    case ThresholdFilesProcessed => [ThresholdFilesProcessedF]
    case ThresholdFilesNotProcessed => [ThresholdFilesNotProcessedF]
    case ThresholdFilesBackup => [ThresholdFilesBackupF]
    case ThresholdFilesDeleted => [ThresholdFilesDeletedF]
    case RuntimeLimitMinutes => [RuntimeLimitMinutesF]
    case Type1ThresholdAge => [Type1ThresholdAgeF]
  }

  function Get(c: Config, f: Field): (n: Number)
    ensures n.Real? <==> IsRealField(f)
  {
    match f
    case NumGenerators => Int(c.numGenerators)
    case NumCalculators => Int(c.numCalculators)
    case InspectorsType1F => Int(c.inspectorsType1)
    case InspectorsType2F => Int(c.inspectorsType2)
    case InspectorsType3F => Int(c.inspectorsType3)
    case GenIntervalMin => Int(c.genIntervalMin)
    case GenIntervalMax => Int(c.genIntervalMax)
    case RowsMin => Int(c.rowsMin)
    case RowsMax => Int(c.rowsMax)
    case ColumnsMin => Int(c.columnsMin)
    case ColumnsMax => Int(c.columnsMax)
    case ValueMin => Real(c.valueMin)
    case ValueMax => Real(c.valueMax)
    case MissingPercentageF => Real(c.missingPercentage)
    case ThresholdFilesProcessedF => Int(c.thresholdFilesProcessed)
    case ThresholdFilesNotProcessedF => Int(c.thresholdFilesNotProcessed)
    case ThresholdFilesBackupF => Int(c.thresholdFilesBackup)
    case ThresholdFilesDeletedF => Int(c.thresholdFilesDeleted)
    case RuntimeLimitMinutesF => Int(c.runtimeLimitMinutes)
    case Type1ThresholdAgeF => Int(c.type1ThresholdAge)
  }

  /** Field `f` overwritten with `v` (of the field's own kind); the others keep theirs. */
  function Set(c: Config, f: Field, v: Number): (r: Config)
    requires v.Real? <==> IsRealField(f)
    ensures forall f' :: Get(r, f') == if f' == f then v else Get(c, f')
  {
    match f
    case NumGenerators => c.(numGenerators := v.i)
    case NumCalculators => c.(numCalculators := v.i)
    case InspectorsType1F => c.(inspectorsType1 := v.i)
    case InspectorsType2F => c.(inspectorsType2 := v.i)
    case InspectorsType3F => c.(inspectorsType3 := v.i)
    case GenIntervalMin => c.(genIntervalMin := v.i)
    case GenIntervalMax => c.(genIntervalMax := v.i)
    case RowsMin => c.(rowsMin := v.i)
    case RowsMax => c.(rowsMax := v.i)
    case ColumnsMin => c.(columnsMin := v.i)
    case ColumnsMax => c.(columnsMax := v.i)
    case ValueMin => c.(valueMin := v.r)
    case ValueMax => c.(valueMax := v.r)
    case MissingPercentageF => c.(missingPercentage := v.r)
    case ThresholdFilesProcessedF => c.(thresholdFilesProcessed := v.i)
    case ThresholdFilesNotProcessedF => c.(thresholdFilesNotProcessed := v.i)
    case ThresholdFilesBackupF => c.(thresholdFilesBackup := v.i)
    case ThresholdFilesDeletedF => c.(thresholdFilesDeleted := v.i)
    case RuntimeLimitMinutesF => c.(runtimeLimitMinutes := v.i)
    case Type1ThresholdAgeF => c.(type1ThresholdAge := v.i)
  }

  /** The number of children the supervisor starts besides the visualization. */
  function RoleCount(c: Config): int
  {
    c.numGenerators + c.numCalculators + c.inspectorsType1 + c.inspectorsType2 + c.inspectorsType3
  }

  /** `initialize_default_config` (config.c:8-29). Every range it sets is
      non-empty, and the five role counts add up to thirteen. */
  function Defaults(): (c: Config)
    ensures c.genIntervalMin <= c.genIntervalMax && c.rowsMin <= c.rowsMax
    ensures c.columnsMin <= c.columnsMax && c.valueMin <= c.valueMax
    ensures 0.0 <= c.missingPercentage <= 100.0
    ensures RoleCount(c) == 13
  {
    Config(5, 2, 2, 2, 2, 1, 5, 1000, 10000, 5, 15, 1.0, 100.0, 5.0, 100, 50, 200, 100, 60, 10)
  }

  /** A line `parse_config` passes over: a comment, or one shorter than three
      characters (its newline included). */
  predicate Skipped(line: string)
  {
    |line| < 3 || line[0] == '#'
  }

  /** `sscanf(line, "%49[^=]=%49s", key, value) == 2` on a line that is not skipped. */
  function SplitLine(line: string): (r: Option<(string, string)>)
    ensures Skipped(line) ==> r.None?
    ensures !Skipped(line) ==> r == ScanKeyValue(line, Some(49))
  {
    if Skipped(line) then None else ScanKeyValue(line, Some(49))
  }

  /** `sscanf(text, "%d,%d", ...)`: the components converted, in order. */
  function IntPair(text: string): (vs: seq<Option<Number>>)
    ensures |vs| == 2 && (vs[0].None? ==> vs[1].None?)
    ensures (vs[0].Some? ==> vs[0].value.Int?) && (vs[1].Some? ==> vs[1].value.Int?)
  {
    var p := ScanPair(text, ScanInt);
    [if p.0.Some? then Some(Int(p.0.value)) else None,
     if p.1.Some? then Some(Int(p.1.value)) else None]
  }

  /** `sscanf(text, "%f,%f", ...)`: the components converted, in order. */
  function RealPair(text: string): (vs: seq<Option<Number>>)
    ensures |vs| == 2 && (vs[0].None? ==> vs[1].None?)
    ensures (vs[0].Some? ==> vs[0].value.Real?) && (vs[1].Some? ==> vs[1].value.Real?)
  {
    var p := ScanPair(text, ScanDecimal);
    [if p.0.Some? then Some(Real(p.0.value)) else None,
     if p.1.Some? then Some(Real(p.1.value)) else None]
  }

  /** What the value text of key `k` assigns to each of its targets, in
      order: `atoi`, `atof`, or the components `sscanf` manages to convert
      from `a,b` (config.c:62-69). */
  function KeyValues(k: Key, text: string): (vs: seq<Option<Number>>)
    ensures |vs| == |Targets(k)|
    ensures vs[0].Some? ==> (vs[0].value.Real? <==> k.ValueRange? || k.MissingPercentage?)
    ensures |vs| == 2 && vs[1].Some? ==> (vs[1].value.Real? <==> k.ValueRange? || k.MissingPercentage?)
    ensures !IsRangeKey(k) ==> vs[0].Some?
    ensures IsRangeKey(k) && vs[0].None? ==> vs[1].None?
  {
    if k.ValueRange? then RealPair(text)
    else if IsRangeKey(k) then IntPair(text)
    else if k.MissingPercentage? then [Some(Real(Atof(text)))]
    else [Some(Int(Atoi(text)))]
  }

  /** The value a list of targets and their values gives field `f`: the
      first target naming it decides. */
  function ValueFor(ts: seq<Field>, vs: seq<Option<Number>>, f: Field): Option<Number>
    requires |ts| == |vs|
  {
    if ts == [] then None else if ts[0] == f then vs[0] else ValueFor(ts[1..], vs[1..], f)
  }

  /** What a line does to field `f`: the value it assigns, or nothing. */
  function LineEffect(line: string, f: Field): Option<Number>
  {
    match SplitLine(line)
    case None => None
    case Some(kv) =>
      match KeyOf(kv.0)
      case None => None
      case Some(k) => ValueFor(Targets(k), KeyValues(k, kv.1), f)
  }

  /** Field `f` overwritten when `v` holds a value. */
  function Put(c: Config, f: Field, v: Option<Number>): (r: Config)
    requires v.Some? ==> (v.value.Real? <==> IsRealField(f))
    ensures forall f' :: Get(r, f') == if f' == f && v.Some? then v.value else Get(c, f')
  {
    if v.Some? then Set(c, f, v.value) else c
  }

  /** Distinct targets, each paired with a value of its own kind. */
  predicate Assignable(ts: seq<Field>, vs: seq<Option<Number>>)
  {
    && |ts| == |vs|
    && (forall i :: 0 <= i < |vs| && vs[i].Some? ==> (vs[i].value.Real? <==> IsRealField(ts[i])))
    && (forall i, j :: 0 <= i < j < |ts| ==> ts[i] != ts[j])
  }

  /** What a key writes is always assignable. */
  lemma KeyAssignable(k: Key, text: string)
    ensures Assignable(Targets(k), KeyValues(k, text))
  {
  }

  /** The targets of one key written in order, each with its value when
      there is one; with distinct targets, each field ends with its own. */
  function PutAll(c: Config, ts: seq<Field>, vs: seq<Option<Number>>): (r: Config)
    requires Assignable(ts, vs)
    ensures forall f :: Get(r, f) == (if ValueFor(ts, vs, f).Some? then ValueFor(ts, vs, f).value else Get(c, f))
    decreases |ts|
  {
    if ts == [] then c
    else
      var r := PutAll(Put(c, ts[0], vs[0]), ts[1..], vs[1..]);
      assert forall f :: f == ts[0] ==> ValueFor(ts[1..], vs[1..], f).None? by {
        forall f | f == ts[0] ensures ValueFor(ts[1..], vs[1..], f).None? {
          ValueForAbsent(ts[1..], vs[1..], f);
        }
      }
      r
  }

  /** A field no target names gets no value. */
  lemma {:induction false} ValueForAbsent(ts: seq<Field>, vs: seq<Option<Number>>, f: Field)
    requires |ts| == |vs| && f !in ts
    ensures ValueFor(ts, vs, f).None?
    decreases |ts|
  {
    if ts != [] {
      assert f != ts[0];
      ValueForAbsent(ts[1..], vs[1..], f);
    }
  }

  /** One iteration of the read loop. */
  function ApplyLine(c: Config, line: string): (r: Config)
    ensures SplitLine(line).None? ==> r == c
    ensures SplitLine(line).Some? && KeyOf(SplitLine(line).value.0).None? ==> r == c
    ensures forall f :: Get(r, f) == (if LineEffect(line, f).Some? then LineEffect(line, f).value else Get(c, f))
  {
    match SplitLine(line)
    case None => c
    case Some(kv) =>
      match KeyOf(kv.0)
      case None => c
      case Some(k) =>
        KeyAssignable(k, kv.1);
        PutAll(c, Targets(k), KeyValues(k, kv.1))
  }

  /** `parse_config(filename, config)`: defaults first, then, when the file
      can be opened, every line in order. `None` is a missing file. */
  function ParseConfig(file: Option<seq<string>>): (c: Config)
    ensures file.None? ==> c == Defaults()
    ensures file == Some([]) ==> c == Defaults()
  {
    match file
    case None => Defaults()
    case Some(lines) => LineFold.Fold(Defaults(), lines, ApplyLine)
  }

  /** Each field ends with the value of the last line that assigns it, or
      keeps its default when no line does. */
  lemma ParseConfigLastWins(lines: seq<string>, f: Field)
    ensures var i := LineFold.LastAssignment(lines, l => LineEffect(l, f));
            Get(ParseConfig(Some(lines)), f) == (if i < 0 then Get(Defaults(), f) else LineEffect(lines[i], f).value)
  {
    var get := (c: Config) => Get(c, f);
    var effect := (l: string) => LineEffect(l, f);
    forall c': Config, l: string
      ensures get(ApplyLine(c', l)) == (if effect(l).Some? then effect(l).value else get(c'))
    {
    }
    LineFold.LastAssignmentWins(Defaults(), lines, ApplyLine, get, effect);
  }

  /** `a,b` printed with `%d` scans back as both numbers. */
  lemma PairOfItoa(a: int, b: int)
    ensures ScanPair(Itoa(a) + "," + Itoa(b), ScanInt) == (Some(a), Some(b))
  {
    var text := Itoa(a) + "," + Itoa(b);
    var tail := "," + Itoa(b);
    ScanIntOfItoa(a, tail);
    assert text == Itoa(a) + tail;
    ScanIntOfItoa(b, []);
    assert tail[1..] == Itoa(b) + [];
    ScanPairOfParts(text, ScanInt, Scan(a, tail), Scan(b, []));
  }

  /** Every key name fits the 49-character field and holds no `=`. */
  lemma KeyNameShape(k: Key)
    ensures 0 < |KeyName(k)| <= 49 && '=' !in KeyName(k)
  {
    match k {
      case FileGenerators => case Calculators => case InspectorsType1 => case InspectorsType2 =>
      case InspectorsType3 => case GenInterval => case Rows => case Columns => case ValueRange =>
      case MissingPercentage => case ThresholdFilesProcessed => case ThresholdFilesNotProcessed =>
      case ThresholdFilesBackup => case ThresholdFilesDeleted => case RuntimeLimitMinutes =>
      case Type1ThresholdAge =>
    }
  }

  /** A `key=value` line for a known key, within the field width, splits
      into that key and value. */
  lemma SplitKnownLine(k: Key, value: string)
    requires 0 < |value| <= 49 && forall i :: 0 <= i < |value| ==> !IsSpace(value[i])
    ensures SplitLine(KeyName(k) + "=" + value + "\n") == Some((KeyName(k), value))
  {
    var key := KeyName(k);
    KeyNameShape(k);
    assert forall i :: 0 <= i < |key| ==> key[i] != '=' by {
      forall i | 0 <= i < |key| ensures key[i] != '=' {
        assert key[i] in key;
      }
    }
    ScanKeyValueOfLine(key, value, "\n", Some(49));
  }

  lemma PairTextHasNoSpace(a: int, b: int)
    ensures var value := Itoa(a) + "," + Itoa(b);
            forall i :: 0 <= i < |value| ==> !IsSpace(value[i])
  {
    var value := Itoa(a) + "," + Itoa(b);
    ItoaShape(a);
    ItoaShape(b);
    forall i | 0 <= i < |value| ensures !IsSpace(value[i]) {
      if i < |Itoa(a)| {
        assert value[i] == Itoa(a)[i];
      } else if i > |Itoa(a)| {
        assert value[i] == Itoa(b)[i - |Itoa(a)| - 1];
      }
    }
  }

  /** What a line `key=a,b` for an integer range key assigns, field by field. */
  lemma RangeLineEffect(k: Key, a: int, b: int, f: Field)
    requires k.GenInterval? || k.Rows? || k.Columns?
    requires |Itoa(a)| + 1 + |Itoa(b)| <= 49
    ensures LineEffect(KeyName(k) + "=" + (Itoa(a) + "," + Itoa(b)) + "\n", f)
            == if f == Targets(k)[0] then Some(Int(a)) else if f == Targets(k)[1] then Some(Int(b)) else None
  {
    var value := Itoa(a) + "," + Itoa(b);
    var line := KeyName(k) + "=" + value + "\n";
    assert SplitLine(line) == Some((KeyName(k), value)) by {
      PairTextHasNoSpace(a, b);
      SplitKnownLine(k, value);
    }
    LineEffectOfSplit(line, k, value, f);
    assert KeyValues(k, value) == [Some(Int(a)), Some(Int(b))] by {
      PairOfItoa(a, b);
    }
    ValueForPair(Targets(k), KeyValues(k, value), f);
  }

  /** `ValueFor` on two targets. */
  lemma ValueForPair(ts: seq<Field>, vs: seq<Option<Number>>, f: Field)
    requires |ts| == |vs| == 2
    ensures ValueFor(ts, vs, f) == if ts[0] == f then vs[0] else if ts[1] == f then vs[1] else None
  {
    if ts[0] != f {
      assert ValueFor(ts, vs, f) == ValueFor(ts[1..], vs[1..], f);
      assert ValueFor(ts[1..], vs[1..], f) == if ts[1] == f then vs[1] else ValueFor(ts[2..], vs[2..], f);
    }
  }

  /** The effect of a line that splits into a known key and its value. */
  lemma LineEffectOfSplit(line: string, k: Key, value: string, f: Field)
    requires SplitLine(line) == Some((KeyName(k), value))
    ensures LineEffect(line, f) == ValueFor(Targets(k), KeyValues(k, value), f)
  {
    KeyOfKeyName(k);
  }

  /** A line `key=a,b` for an integer range key, within the 49-character
      field width, sets the range's minimum to `a` and its maximum to `b`
      and leaves every other field alone. */
  lemma RangeLineSetsBoth(c: Config, k: Key, a: int, b: int)
    requires k.GenInterval? || k.Rows? || k.Columns?
    requires |Itoa(a)| + 1 + |Itoa(b)| <= 49
    ensures var r := ApplyLine(c, KeyName(k) + "=" + (Itoa(a) + "," + Itoa(b)) + "\n");
            && Get(r, Targets(k)[0]) == Int(a) && Get(r, Targets(k)[1]) == Int(b)
            && forall f :: f !in Targets(k) ==> Get(r, f) == Get(c, f)
  {
    var line := KeyName(k) + "=" + (Itoa(a) + "," + Itoa(b)) + "\n";
    var r := ApplyLine(c, line);
    forall f
      ensures Get(r, f) == if f == Targets(k)[0] then Int(a) else if f == Targets(k)[1] then Int(b) else Get(c, f)
    {
      RangeLineEffect(k, a, b, f);
      ApplyLineField(c, line, f);
    }
    TwoFieldsSet(c, r, Targets(k), Int(a), Int(b));
  }

  /** A field after one line: the line's value for it, or the old one. */
  lemma ApplyLineField(c: Config, line: string, f: Field)
    ensures Get(ApplyLine(c, line), f) == if LineEffect(line, f).Some? then LineEffect(line, f).value else Get(c, f)
  {
  }

  /** A record that differs from `c` exactly by `u` and `v` in two fields. */
  lemma TwoFieldsSet(c: Config, r: Config, ts: seq<Field>, u: Number, v: Number)
    requires |ts| == 2
    requires forall f :: Get(r, f) == if f == ts[0] then u else if f == ts[1] then v else Get(c, f)
    ensures Get(r, ts[0]) == u && (ts[1] != ts[0] ==> Get(r, ts[1]) == v)
    ensures forall f :: f !in ts ==> Get(r, f) == Get(c, f)
  {
  }
}
