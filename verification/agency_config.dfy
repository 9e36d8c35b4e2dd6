/** The counter-espionage simulation's configuration reader
    (Project_Three/config.c): `key=value` lines over a zeroed record. */
module AgencyConfig {
  import opened CLib
  import opened CScan
  import LineFold

  /** The fifteen parameters; `double` fields are `real`. */
  datatype Config = Config(
    agencyMembers: int,
    groupCreationInterval: int,
    groupSizeMin: int,
    groupSizeMax: int,
    militaryGroupPercentage: int,
    spyInfiltrationProbability: real,
    targetProbability: real,
    recoveryLight: int,
    recoverySevere: int,
    suspicionThreshold: real,
    arrestReleaseThreshold: real,
    arrestImprisonThreshold: real,
    maxKilled: int,
    maxInjured: int,
    agencyTimeLimit: int)

  /** The recognised keys, one per field. */
  datatype Key =
    | AgencyMembers | GroupCreationInterval | GroupSizeMin | GroupSizeMax
    | MilitaryGroupPercentage | SpyInfiltrationProbability | TargetProbability
    | RecoveryLight | RecoverySevere | SuspicionThreshold | ArrestReleaseThreshold
    | ArrestImprisonThreshold | MaxKilled | MaxInjured | AgencyTimeLimit

  function KeyName(k: Key): string
  {
    match k
    case AgencyMembers => "agency_members"
    case GroupCreationInterval => "group_creation_interval"
    case GroupSizeMin => "group_size_min"
    case GroupSizeMax => "group_size_max"
    case MilitaryGroupPercentage => "military_group_percentage"
    case SpyInfiltrationProbability => "spy_infiltration_probability"
    case TargetProbability => "target_probability"
    case RecoveryLight => "recovery_light"
    case RecoverySevere => "recovery_severe"
    case SuspicionThreshold => "suspicion_threshold"
    case ArrestReleaseThreshold => "arrest_release_threshold"
    case ArrestImprisonThreshold => "arrest_imprison_threshold"
    case MaxKilled => "max_killed"
    case MaxInjured => "max_injured"
    case AgencyTimeLimit => "agency_time_limit"
  }

  /** The keys in the order of the `strcmp` chain of config.c:31-60. */
  const Keys: seq<Key> := [
    AgencyMembers, GroupCreationInterval, GroupSizeMin, GroupSizeMax,
    MilitaryGroupPercentage, SpyInfiltrationProbability, TargetProbability,
    RecoveryLight, RecoverySevere, SuspicionThreshold, ArrestReleaseThreshold,
    ArrestImprisonThreshold, MaxKilled, MaxInjured, AgencyTimeLimit]

  /** The `strcmp` chain: which field a key string names, if any. */
  function KeyOf(name: string): (r: Option<Key>)
    ensures r.Some? ==> KeyName(r.value) == name
  {
    LineFold.Lookup(name, Keys, KeyName)
  }

  /** No two keys share a name. */
  lemma KeyNameInjective(a: Key, b: Key)
    ensures KeyName(a) == KeyName(b) ==> a == b
  {
  }

  /** Every key is in the table. */
  lemma KeysComplete(k: Key)
    ensures k in Keys
  {
  }

  /** Every field's own name is recognised as that field. */
  lemma KeyOfKeyName(k: Key)
    ensures KeyOf(KeyName(k)) == Some(k)
  {
    KeysComplete(k);
    var i :| 0 <= i < |Keys| && Keys[i] == k;
    assert KeyName(Keys[i]) == KeyName(k);
    KeyNameInjective(KeyOf(KeyName(k)).value, k);
  }

  /** Fields read with `atof` rather than `atoi`. */
  predicate IsRealKey(k: Key)
  {
    k.SpyInfiltrationProbability? || k.TargetProbability? || k.SuspicionThreshold?
    || k.ArrestReleaseThreshold? || k.ArrestImprisonThreshold?
  }

  function Get(c: Config, k: Key): (n: Number)
    ensures n.Real? <==> IsRealKey(k)
  {
    match k
    case AgencyMembers => Int(c.agencyMembers)
    case GroupCreationInterval => Int(c.groupCreationInterval)
    case GroupSizeMin => Int(c.groupSizeMin)
    case GroupSizeMax => Int(c.groupSizeMax)
    case MilitaryGroupPercentage => Int(c.militaryGroupPercentage)
    case SpyInfiltrationProbability => Real(c.spyInfiltrationProbability)
    case TargetProbability => Real(c.targetProbability)
    case RecoveryLight => Int(c.recoveryLight)
    case RecoverySevere => Int(c.recoverySevere)
    case SuspicionThreshold => Real(c.suspicionThreshold)
    case ArrestReleaseThreshold => Real(c.arrestReleaseThreshold)
    case ArrestImprisonThreshold => Real(c.arrestImprisonThreshold)
    case MaxKilled => Int(c.maxKilled)
    case MaxInjured => Int(c.maxInjured)
    case AgencyTimeLimit => Int(c.agencyTimeLimit)
  }

  /** The value a key's text converts to: `atof` for double fields, `atoi` otherwise. */
  function Convert(k: Key, text: string): Number
  {
    if IsRealKey(k) then Real(Atof(text)) else Int(Atoi(text))
  }

  /** Field `k` overwritten with `v` (of the field's own kind). */
  function Set(c: Config, k: Key, v: Number): Config
    requires v.Real? <==> IsRealKey(k)
  {
    match k
    case AgencyMembers => c.(agencyMembers := v.i)
    case GroupCreationInterval => c.(groupCreationInterval := v.i)
    case GroupSizeMin => c.(groupSizeMin := v.i)
    case GroupSizeMax => c.(groupSizeMax := v.i)
    case MilitaryGroupPercentage => c.(militaryGroupPercentage := v.i)
    case SpyInfiltrationProbability => c.(spyInfiltrationProbability := v.r)
    case TargetProbability => c.(targetProbability := v.r)
    case RecoveryLight => c.(recoveryLight := v.i)
    case RecoverySevere => c.(recoverySevere := v.i)
    case SuspicionThreshold => c.(suspicionThreshold := v.r)
    case ArrestReleaseThreshold => c.(arrestReleaseThreshold := v.r)
    case ArrestImprisonThreshold => c.(arrestImprisonThreshold := v.r)
    case MaxKilled => c.(maxKilled := v.i)
    case MaxInjured => c.(maxInjured := v.i)
    case AgencyTimeLimit => c.(agencyTimeLimit := v.i)
  }

  lemma SetGet(c: Config, k: Key, v: Number, k': Key)
    requires v.Real? <==> IsRealKey(k)
    ensures Get(Set(c, k, v), k') == if k' == k then v else Get(c, k')
  {
    match k' {
      case AgencyMembers => case GroupCreationInterval => case GroupSizeMin =>
      case GroupSizeMax => case MilitaryGroupPercentage => case SpyInfiltrationProbability =>
      case TargetProbability => case RecoveryLight => case RecoverySevere =>
      case SuspicionThreshold => case ArrestReleaseThreshold => case ArrestImprisonThreshold =>
      case MaxKilled => case MaxInjured => case AgencyTimeLimit =>
    }
  }

  lemma SetGetAll(c: Config, k: Key, v: Number)
    requires v.Real? <==> IsRealKey(k)
    ensures forall k' :: Get(Set(c, k, v), k') == if k' == k then v else Get(c, k')
  {
    forall k' ensures Get(Set(c, k, v), k') == if k' == k then v else Get(c, k') {
      SetGet(c, k, v, k');
    }
  }

  /** One branch of the `strcmp` chain: only the named field changes, to the
      converted text. */
  function Assign(c: Config, k: Key, text: string): (r: Config)
    ensures Get(r, k) == Convert(k, text)
    ensures forall k' :: k' != k ==> Get(r, k') == Get(c, k')
  {
    SetGetAll(c, k, Convert(k, text));
    Set(c, k, Convert(k, text))
  }

  /** The record after `memset(config, 0, sizeof(Config))`. */
  function Zeroed(): (c: Config)
    ensures forall k :: Get(c, k) == (if IsRealKey(k) then Real(0.0) else Int(0))
  {
    Config(0, 0, 0, 0, 0, 0.0, 0.0, 0, 0, 0.0, 0.0, 0.0, 0, 0, 0)
  }

  /** A comment line, or a line that is only a newline. */
  predicate Skipped(line: string)
  {
    |line| > 0 && (line[0] == '#' || line[0] == '\n')
  }

  /** The key and value text a line assigns, if it is not skipped and splits
      as `key=value`. */
  function SplitLine(line: string): (r: Option<(string, string)>)
    ensures Skipped(line) ==> r.None?
    ensures !Skipped(line) ==> r == ScanKeyValue(line, None)
  {
    if Skipped(line) then None else ScanKeyValue(line, None)
  }

  /** What a line does to field `k`: the converted value, or nothing. */
  function LineEffect(line: string, k: Key): Option<Number>
  {
    match SplitLine(line)
    case None => None
    case Some(kv) => if KeyOf(kv.0) == Some(k) then Some(Convert(k, kv.1)) else None
  }

  /** One iteration of the read loop. */
  function ApplyLine(c: Config, line: string): (r: Config)
    ensures SplitLine(line).None? ==> r == c
    ensures SplitLine(line).Some? && KeyOf(SplitLine(line).value.0).None? ==> r == c
    ensures forall k :: Get(r, k) == (if LineEffect(line, k).Some? then LineEffect(line, k).value else Get(c, k))
  {
    match SplitLine(line)
    case None => c
    case Some(kv) =>
      match KeyOf(kv.0)
      case None => c
      case Some(k) => Assign(c, k, kv.1)
  }

  /** `parse_config`'s return code and the caller's record afterwards. */
  datatype Parsed = Parsed(status: int, config: Config)

  /** `parse_config(filename, config)`: `None` is a file that cannot be
      opened, which leaves the caller's record untouched and returns -1. */
  function ParseConfig(file: Option<seq<string>>, prior: Config): (r: Parsed)
    ensures file.None? ==> r == Parsed(-1, prior)
    ensures file.Some? ==> r.status == 0
  {
    match file
    case None => Parsed(-1, prior)
    case Some(lines) => Parsed(0, LineFold.Fold(Zeroed(), lines, ApplyLine))
  }

  /** Every field of a readable file's result is set by the last line that
      assigns it, and is zero when no line does: the previous contents of the
      record never leak through, and later lines override earlier ones. */
  lemma ParseConfigLastWins(lines: seq<string>, prior: Config, k: Key)
    ensures var r := ParseConfig(Some(lines), prior);
            var i := LineFold.LastAssignment(lines, l => LineEffect(l, k));
            r.status == 0 &&
            Get(r.config, k) == (if i < 0 then Get(Zeroed(), k) else LineEffect(lines[i], k).value)
  {
    var get := (c: Config) => Get(c, k);
    var effect := (l: string) => LineEffect(l, k);
    forall c': Config, l: string
      ensures get(ApplyLine(c', l)) == (if effect(l).Some? then effect(l).value else get(c'))
    {
    }
    LineFold.LastAssignmentWins(Zeroed(), lines, ApplyLine, get, effect);
  }
}
