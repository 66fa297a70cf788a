/**
 * The first step of the analysis endpoint: the submitted form, whose fields
 * are named `crit_<i>_val_<j>`, is read into a fixed grid of CriteriaCount
 * rows with ValuesPerCriterion numbers each. A field that is missing or that
 * does not parse as a number reads as 0.
 */
module Grid {

  const CriteriaCount: nat := 5
  const ValuesPerCriterion: nat := 3

  /** What a form field holds once the number parser has been applied to it. */
  datatype Field = Numeric(value: real) | NotNumeric

  /** The submitted form: a key that is absent is a field the user did not send. */
  type Form = map<string, Field>

  /** One row per criterion, one number per value of that criterion. */
  type Grid = seq<seq<real>>

  predicate WellShaped(g: Grid) {
    |g| == CriteriaCount && forall i :: 0 <= i < |g| ==> |g[i]| == ValuesPerCriterion
  }

  function Digit(n: nat): (c: char)
    requires n < 10
    ensures '0' <= c <= '9'
  {
    ('0' as int + n) as char
  }

  /** The decimal notation of a natural number, as an f-string renders it. */
  function Decimal(n: nat): (s: string)
    ensures |s| > 0
    ensures forall k :: 0 <= k < |s| ==> '0' <= s[k] <= '9'
  {
    if n < 10 then [Digit(n)] else Decimal(n / 10) + [Digit(n % 10)]
  }

  /** The name of the form field that holds value j of criterion i. */
  function FieldKey(i: nat, j: nat): string {
    "crit_" + Decimal(i) + "_val_" + Decimal(j)
  }

  /**
   * The number a field contributes to the grid: its parsed value, or 0 when
   * the field is missing or the parser rejects it.
   */
  function FieldValue(form: Form, key: string): real {
    if key in form && form[key].Numeric? then form[key].value else 0.0
  }

  /** The grid the endpoint builds from a form. */
  function GridOf(form: Form): Grid {
    seq(CriteriaCount, i requires 0 <= i =>
      seq(ValuesPerCriterion, j requires 0 <= j => FieldValue(form, FieldKey(i, j))))
  }

  /**
   * The nested loops of the endpoint, appending one value at a time to a row
   * and one row at a time to the grid.
   */
  method ParseGrid(form: Form) returns (g: Grid)
    ensures g == GridOf(form)
  {
    g := [];
    var i := 0;
    while i < CriteriaCount
      invariant 0 <= i <= CriteriaCount
      invariant g == GridOf(form)[..i]
    {
      var values: seq<real> := [];
      var j := 0;
      while j < ValuesPerCriterion
        invariant 0 <= j <= ValuesPerCriterion
        invariant values == GridOf(form)[i][..j]
      {
        var key := FieldKey(i, j);
        var value := if key in form && form[key].Numeric? then form[key].value else 0.0;
        values := values + [value];
        j := j + 1;
      }
      assert values == GridOf(form)[i];
      g := g + [values];
      i := i + 1;
    }
  }

  /** The grid always has the fixed shape, and each cell holds the value of its own field. */
  lemma GridOfShape(form: Form)
    ensures WellShaped(GridOf(form))
    ensures forall i, j :: 0 <= i < CriteriaCount && 0 <= j < ValuesPerCriterion ==>
      GridOf(form)[i][j] == FieldValue(form, FieldKey(i, j))
  {
  }

  /** A cell is the parsed number when its field parses, and 0 when it is missing or does not. */
  lemma GridCell(form: Form, i: nat, j: nat)
    requires i < CriteriaCount && j < ValuesPerCriterion
    ensures FieldKey(i, j) in form && form[FieldKey(i, j)].Numeric? ==>
      GridOf(form)[i][j] == form[FieldKey(i, j)].value
    ensures FieldKey(i, j) !in form || form[FieldKey(i, j)].NotNumeric? ==>
      GridOf(form)[i][j] == 0.0
  {
  }

  /** Different cells are read from different fields. */
  lemma {:induction false} FieldKeysDistinct(i: nat, j: nat, i': nat, j': nat)
    requires i < 10 && j < 10 && i' < 10 && j' < 10
    requires i != i' || j != j'
    ensures FieldKey(i, j) != FieldKey(i', j')
  {
    var k, k' := FieldKey(i, j), FieldKey(i', j');
    assert k[5] == Digit(i) && k'[5] == Digit(i');
    assert k[11] == Digit(j) && k'[11] == Digit(j');
  }

  /**
   * No field other than `crit_i_val_j` affects cell (i, j): changing, adding or
   * removing any other field leaves that cell as it was.
   */
  lemma {:induction false} CellIgnoresOtherFields(form: Form, other: Form, i: nat, j: nat)
    requires i < CriteriaCount && j < ValuesPerCriterion
    requires FieldKey(i, j) in form <==> FieldKey(i, j) in other
    requires FieldKey(i, j) in form ==> form[FieldKey(i, j)] == other[FieldKey(i, j)]
    ensures GridOf(form)[i][j] == GridOf(other)[i][j]
  {
  }

  /** Replacing the field of one cell changes that cell and no other. */
  lemma {:induction false} SetFieldChangesOneCell(form: Form, i: nat, j: nat, f: Field)
    requires i < CriteriaCount && j < ValuesPerCriterion
    ensures GridOf(form[FieldKey(i, j) := f])[i][j] == if f.Numeric? then f.value else 0.0
    ensures forall i', j' :: 0 <= i' < CriteriaCount && 0 <= j' < ValuesPerCriterion && (i' != i || j' != j) ==>
      GridOf(form[FieldKey(i, j) := f])[i'][j'] == GridOf(form)[i'][j']
  {
    forall i', j' | 0 <= i' < CriteriaCount && 0 <= j' < ValuesPerCriterion && (i' != i || j' != j)
      ensures GridOf(form[FieldKey(i, j) := f])[i'][j'] == GridOf(form)[i'][j']
    {
      FieldKeysDistinct(i, j, i', j');
    }
  }
}
