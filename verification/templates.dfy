/** The universes a player can switch to: a name, a rule and a palette with
    one colour per channel, each started from an all-zero grid. */
module Templates {
  import opened Wrappers
  import opened Rules

  /** Three colour components in the order they are stored. */
  datatype Triple = Triple(c0: int, c1: int, c2: int)

  /** The same colour with its components in the opposite order (RGB to BGR
      and back). */
  function Reverse(t: Triple): Triple {
    Triple(t.c2, t.c1, t.c0)
  }

  lemma ReverseInvolutive(t: Triple)
    ensures Reverse(Reverse(t)) == t
  {
  }

  datatype Template = Template(name: string, rule: Rule, colors: seq<Triple>)

  /** The palette has one colour per channel of the rule. */
  predicate WellFormed(t: Template) {
    |t.colors| == Channels(t.rule) && Channels(t.rule) > 0
  }

  /** The table of the current server: the three universes, each under its
      own name with one palette colour per channel. Every palette is given
      in RGB and stored with its components reversed, as the video frame is
      BGR. */
  function CellularTable(): (r: map<string, Template>)
    ensures r.Keys == {"game_of_life", "falling_sand", "growth"}
    ensures forall n :: n in r ==> r[n].name == n && WellFormed(r[n])
  {
    map[
      "game_of_life" := Template("game_of_life", GameOfLifeRule,
        [Reverse(Triple(0, 0, 0)), Reverse(Triple(0, 255, 0))]),
      "falling_sand" := Template("falling_sand", FallingSandRule,
        [Reverse(Triple(0, 75, 173)), Reverse(Triple(255, 218, 148)), Reverse(Triple(255, 218, 148))]),
      "growth" := Template("growth", GrowthRule,
        [Reverse(Triple(0, 0, 0)), Reverse(Triple(255, 0, 255)), Reverse(Triple(0, 255, 255))])
    ]
  }

  /** The table of the earlier server: the same three universes, with
      palettes stored as given. */
  function LegacyTable(): (r: map<string, Template>)
    ensures r.Keys == {"game_of_life", "falling_sand", "growth"}
    ensures forall n :: n in r ==> r[n].name == n && WellFormed(r[n])
  {
    map[
      "falling_sand" := Template("falling_sand", FallingSandRule,
        [Triple(0, 0, 0), Triple(0, 255, 0), Triple(0, 0, 255)]),
      "growth" := Template("growth", GrowthRule,
        [Triple(0, 0, 0), Triple(0, 255, 0), Triple(0, 0, 255)]),
      "game_of_life" := Template("game_of_life", GameOfLifeRule,
        [Triple(0, 0, 0), Triple(0, 255, 0)])
    ]
  }

  /** The template a `universe` request names; an unknown name is a KeyError. */
  function Lookup(table: map<string, Template>, name: string): (r: Option<Template>)
    ensures r.Some? <==> name in table
    ensures r.Some? ==> r.value == table[name]
  {
    if name in table then Some(table[name]) else None
  }

  const CellularInitial: string := "game_of_life"
  const LegacyInitial: string := "falling_sand"

  /** Both tables give each universe the same rule, and each server starts
      from an entry of its table. */
  lemma TablesWellFormed()
    ensures forall n :: n in CellularTable() ==> n in LegacyTable() && CellularTable()[n].rule == LegacyTable()[n].rule
    ensures CellularInitial in CellularTable() && CellularTable()[CellularInitial].rule == GameOfLifeRule
    ensures LegacyInitial in LegacyTable() && LegacyTable()[LegacyInitial].rule == FallingSandRule
  {
  }
}
