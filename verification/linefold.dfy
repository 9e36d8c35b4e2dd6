/** The shape shared by the three configuration readers: a `while (fgets(...))`
    loop that folds each line into a configuration record, so that a field
    ends up with the value of the LAST line that assigns it. */
module LineFold {
  import opened CLib

  /** Apply `step` to every line, first line first. */
  function Fold<C>(c: C, lines: seq<string>, step: (C, string) -> C): C
    decreases |lines|
  {
    if lines == [] then c else Fold(step(c, lines[0]), lines[1..], step)
  }

  /** Index of the last line whose `effect` is an assignment, or -1 when no line assigns. */
  function LastAssignment<V>(lines: seq<string>, effect: string -> Option<V>): (k: int)
    ensures -1 <= k < |lines|
    ensures k >= 0 ==> effect(lines[k]).Some?
    ensures forall j :: k < j < |lines| ==> effect(lines[j]).None?
    decreases |lines|
  {
    if lines == [] then -1
    else
      var k := LastAssignment(lines[1..], effect);
      if k >= 0 then k + 1 else if effect(lines[0]).Some? then 0 else -1
  }

  /** Last assignment wins: if every line either sets the observed field to
      the value it carries or leaves it alone, the field after the whole file
      is the value of the last assigning line, or its starting value when no
      line assigns it. */
  lemma {:induction false} LastAssignmentWins<C, V>(c: C, lines: seq<string>, step: (C, string) -> C,
                                                    get: C -> V, effect: string -> Option<V>)
    requires forall c': C, l: string {:trigger get(step(c', l))} ::
               get(step(c', l)) == (if effect(l).Some? then effect(l).value else get(c'))
    ensures var k := LastAssignment(lines, effect);
            get(Fold(c, lines, step)) == (if k < 0 then get(c) else effect(lines[k]).value)
    decreases |lines|
  {
    if lines != [] {
      LastAssignmentWins(step(c, lines[0]), lines[1..], step, get, effect);
    }
  }

  /** The first entry of `table` named `name`: a reader's `strcmp` chain,
      compared in order. */
  function Lookup<K>(name: string, table: seq<K>, nameOf: K -> string): (r: Option<K>)
    ensures r.Some? ==> nameOf(r.value) == name && r.value in table
    ensures r.None? ==> forall i :: 0 <= i < |table| ==> nameOf(table[i]) != name
    decreases |table|
  {
    if table == [] then None
    else if nameOf(table[0]) == name then Some(table[0])
    else Lookup(name, table[1..], nameOf)
  }
}
