/** The rope-pulling game's settings reader (`read_settings`,
    Project_One/main.c:48-69): `KEY value` lines that set the seven game
    globals. The globals are zero before the file is read (static storage),
    and lines that do not set a known key leave them alone. */
module GameSettings {
  import opened CLib
  import opened CScan
  import LineFold

  datatype Settings = Settings(
    initialEnergy: int,
    energyDecreaseJump: int,
    energyDecreasePull: int,
    energyDecreaseTime: int,
    maxScore: int,
    maxTime: int,
    jumpPrepDelay: int)

  datatype Key =
    | InitialEnergy | EnergyDecreaseJump | EnergyDecreasePull | EnergyDecreaseTime
    | MaxScore | MaxTime | JumpPrepDelay

  function KeyName(k: Key): string
  {
    match k
    case InitialEnergy => "INITIAL_ENERGY"
    case EnergyDecreaseJump => "ENERGY_DECREASE_JUMP"
    case EnergyDecreasePull => "ENERGY_DECREASE_PULL"
    case EnergyDecreaseTime => "ENERGY_DECREASE_TIME"
    case MaxScore => "MAX_SCORE"
    case MaxTime => "MAX_TIME"
    case JumpPrepDelay => "JUMP_PREP_DELAY"
  }

  /** The keys in the order of the `strcmp` chain of main.c:59-65. */
  const Keys: seq<Key> := [
    InitialEnergy, EnergyDecreaseJump, EnergyDecreasePull, EnergyDecreaseTime,
    MaxScore, MaxTime, JumpPrepDelay]

  /** The `strcmp` chain: which global a key string names, if any. */
  function KeyOf(name: string): (r: Option<Key>)
    ensures r.Some? ==> KeyName(r.value) == name
  {
    LineFold.Lookup(name, Keys, KeyName)
  }

  /** No two keys share a name. */
  lemma KeyNameInjective(a: Key, b: Key)
    ensures KeyName(a) == KeyName(b) ==> a == b
  {
  }

  /** Every key is in the table. */
  lemma KeysComplete(k: Key)
    ensures k in Keys
  {
  }

  /** Every global's own name is recognised as that global. */
  lemma KeyOfKeyName(k: Key)
    ensures KeyOf(KeyName(k)) == Some(k)
  {
    KeysComplete(k);
    var i :| 0 <= i < |Keys| && Keys[i] == k;
    assert KeyName(Keys[i]) == KeyName(k);
    KeyNameInjective(KeyOf(KeyName(k)).value, k);
  }

  /** Every key name is a non-empty word without white space. */
  lemma KeyNameIsWord(k: Key)
    ensures |KeyName(k)| > 0 && forall i :: 0 <= i < |KeyName(k)| ==> !IsSpace(KeyName(k)[i])
  {
    match k {
      case InitialEnergy => case EnergyDecreaseJump => case EnergyDecreasePull =>
      case EnergyDecreaseTime => case MaxScore => case MaxTime => case JumpPrepDelay =>
    }
  }

  function Get(s: Settings, k: Key): int
  {
    match k
    case InitialEnergy => s.initialEnergy
    case EnergyDecreaseJump => s.energyDecreaseJump
    case EnergyDecreasePull => s.energyDecreasePull
    case EnergyDecreaseTime => s.energyDecreaseTime
    case MaxScore => s.maxScore
    case MaxTime => s.maxTime
    case JumpPrepDelay => s.jumpPrepDelay
  }

  /** Setting one global: that global takes the value and the others keep theirs. */
  function Set(s: Settings, k: Key, v: int): (r: Settings)
    ensures forall k' :: Get(r, k') == if k' == k then v else Get(s, k')
  {
    match k
    case InitialEnergy => s.(initialEnergy := v)
    case EnergyDecreaseJump => s.(energyDecreaseJump := v)
    case EnergyDecreasePull => s.(energyDecreasePull := v)
    case EnergyDecreaseTime => s.(energyDecreaseTime := v)
    case MaxScore => s.(maxScore := v)
    case MaxTime => s.(maxTime := v)
    case JumpPrepDelay => s.(jumpPrepDelay := v)
  }

  /** The globals before `read_settings` runs. */
  function Unset(): (s: Settings)
    ensures forall k :: Get(s, k) == 0
  {
    Settings(0, 0, 0, 0, 0, 0, 0)
  }

  /** What a line does to global `k`: the value it sets, or nothing. */
  function LineEffect(line: string, k: Key): Option<int>
  {
    match ScanWordInt(line)
    case None => None
    case Some(kv) => if KeyOf(kv.0) == Some(k) then Some(kv.1) else None
  }

  /** One iteration of the read loop: a line that scans as a word and an
      integer with a known word sets that global; every other line,
      including an unknown key, changes nothing. */
  function ApplyLine(s: Settings, line: string): (r: Settings)
    ensures ScanWordInt(line).None? ==> r == s
    ensures ScanWordInt(line).Some? && KeyOf(ScanWordInt(line).value.0).None? ==> r == s
    ensures forall k :: Get(r, k) == (if LineEffect(line, k).Some? then LineEffect(line, k).value else Get(s, k))
  {
    match ScanWordInt(line)
    case None => s
    case Some(kv) =>
      match KeyOf(kv.0)
      case None => s
      case Some(k) => Set(s, k, kv.1)
  }

  /** `read_settings(filename)`: `None` is the exit when the file cannot be
      opened; otherwise the globals after every line has been applied. */
  function ReadSettings(file: Option<seq<string>>, prior: Settings): (r: Option<Settings>)
    ensures r.None? <==> file.None?
    ensures file == Some([]) ==> r == Some(prior)
  {
    match file
    case None => None
    case Some(lines) => Some(LineFold.Fold(prior, lines, ApplyLine))
  }

  /** Each global ends with the value of the last line that sets it, or keeps
      its earlier value when no line does. */
  lemma ReadSettingsLastWins(lines: seq<string>, prior: Settings, k: Key)
    ensures var r := ReadSettings(Some(lines), prior);
            var i := LineFold.LastAssignment(lines, l => LineEffect(l, k));
            r.Some? && Get(r.value, k) == (if i < 0 then Get(prior, k) else LineEffect(lines[i], k).value)
  {
    var get := (s: Settings) => Get(s, k);
    var effect := (l: string) => LineEffect(l, k);
    forall s': Settings, l: string
      ensures get(ApplyLine(s', l)) == (if effect(l).Some? then effect(l).value else get(s'))
    {
    }
    LineFold.LastAssignmentWins(prior, lines, ApplyLine, get, effect);
  }

  /** A well-formed `KEY value` line for a known key sets exactly that global. */
  lemma KnownLineSets(s: Settings, k: Key, v: int, tail: string)
    requires tail == [] || !IsDigit(tail[0])
    ensures var r := ApplyLine(s, KeyName(k) + " " + Itoa(v) + tail);
            Get(r, k) == v && forall k' :: k' != k ==> Get(r, k') == Get(s, k')
  {
    KeyOfKeyName(k);
    KeyNameIsWord(k);
    ScanWordIntOfLine(KeyName(k), v, tail);
  }
}
