/** The fixed table of movement categories and its two lookups with fallbacks
    (src/lib/constants.ts). */
module Categories {
  import opened Wrappers

  datatype Category = Category(value: string, labelText: string, color: string)

  /** `MOVEMENT_CATEGORIES`, in display order. */
  const MovementCategories: seq<Category> := [
    Category("upper_push", "Upper Push", "bg-blue-500"),
    Category("upper_pull", "Upper Pull", "bg-indigo-500"),
    Category("lower_push", "Lower Push", "bg-emerald-500"),
    Category("lower_hinge", "Lower Hinge", "bg-amber-500"),
    Category("core", "Core", "bg-rose-500")
  ]

  /** The color of any category not in the table. */
  const FallbackColor: string := "bg-gray-500"

  /** `find` by value: the first entry with that value. */
  function FindIn(cs: seq<Category>, value: string): (r: Option<Category>)
    ensures r.Some? ==> r.value in cs && r.value.value == value
    ensures r.None? <==> forall i :: 0 <= i < |cs| ==> cs[i].value != value
  {
    if cs == [] then None
    else if cs[0].value == value then Some(cs[0])
    else FindIn(cs[1..], value)
  }

  function Find(value: string): Option<Category>
  {
    FindIn(MovementCategories, value)
  }

  /** True for the five values of the table. */
  predicate IsKnown(value: string)
  {
    exists i :: 0 <= i < |MovementCategories| && MovementCategories[i].value == value
  }

  /** `getCategoryLabel`: the table label, or the input itself when unknown. */
  function GetCategoryLabel(category: string): string
  {
    match Find(category)
    case Some(c) => c.labelText
    case None => category
  }

  /** `getCategoryColor`: the table color, or gray when unknown. */
  function GetCategoryColor(category: string): string
  {
    match Find(category)
    case Some(c) => c.color
    case None => FallbackColor
  }

  /** The table has five entries with pairwise distinct values. */
  lemma TableShape()
    ensures |MovementCategories| == 5
    ensures forall i, j :: 0 <= i < j < 5 ==> MovementCategories[i].value != MovementCategories[j].value
  {
  }

  /** With distinct values, `find` returns the unique entry holding a value. */
  lemma {:induction false} FindInDistinct(cs: seq<Category>, i: nat)
    requires i < |cs|
    requires forall p, q :: 0 <= p < q < |cs| ==> cs[p].value != cs[q].value
    ensures FindIn(cs, cs[i].value) == Some(cs[i])
  {
    if i > 0 {
      assert cs[0].value != cs[i].value;
      FindInDistinct(cs[1..], i - 1);
    }
  }

  /** A known value gets its own entry's label (`labelText`, since `label` is a Dafny keyword) and color. */
  lemma KnownLookups(i: nat)
    requires i < |MovementCategories|
    ensures GetCategoryLabel(MovementCategories[i].value) == MovementCategories[i].labelText
    ensures GetCategoryColor(MovementCategories[i].value) == MovementCategories[i].color
  {
    TableShape();
    FindInDistinct(MovementCategories, i);
  }

  /** An unknown value is echoed as its own label and colored gray. */
  lemma UnknownLookups(category: string)
    requires !IsKnown(category)
    ensures GetCategoryLabel(category) == category
    ensures GetCategoryColor(category) == FallbackColor
  {
  }

  /** Both lookups fall back together: a value is echoed as its label exactly
      when it is colored gray, exactly when it is not in the table. */
  lemma FallbacksAgree(category: string)
    ensures GetCategoryLabel(category) == category <==> !IsKnown(category)
    ensures GetCategoryColor(category) == FallbackColor <==> !IsKnown(category)
  {
    if IsKnown(category) {
      var i :| 0 <= i < |MovementCategories| && MovementCategories[i].value == category;
      KnownLookups(i);
      EntriesDifferFromFallbacks(i);
    }
  }

  /** No entry's label equals its value, and no entry is colored gray: the
      labels are capitalised and the colors differ from gray at their fourth
      character. */
  lemma EntriesDifferFromFallbacks(i: nat)
    requires i < |MovementCategories|
    ensures MovementCategories[i].labelText != MovementCategories[i].value
    ensures MovementCategories[i].color != FallbackColor
  {
    var c := MovementCategories[i];
    assert c.labelText[0] != c.value[0];
    assert c.color[3] != FallbackColor[3];
  }
}
