/**
 * The sticker-grid catalog (src/config/templates.js): named page grids of
 * cols × rows stickers, one of them the default.
 */
module Templates {
  import opened JsText

  datatype Template = Template(cols: int, rows: int, name: string, description: string)

  // The four grids of STICKER_TEMPLATES. Each description is the text of the
  // catalog written in three pieces, the middle one "= <capacity> ", so that
  // the lemmas below can point at the capacity without taking the text apart.
  const Grid3x8: Template := Template(3, 8, "3×8 (по умолчанию)", "3 колонки × 8 рядов " + "= 24 " + "наклейки на лист")
  const Grid3x7: Template := Template(3, 7, "3×7", "3 колонки × 7 рядов " + "= 21 " + "наклейка на лист")
  const Grid2x10: Template := Template(2, 10, "2×10", "2 колонки × 10 рядов " + "= 20 " + "наклеек на лист")
  const Grid4x6: Template := Template(4, 6, "4×6", "4 колонки × 6 рядов " + "= 24 " + "наклейки на лист")

  /** STICKER_TEMPLATES */
  const StickerTemplates: map<string, Template> :=
    map["3x8" := Grid3x8, "3x7" := Grid3x7, "2x10" := Grid2x10, "4x6" := Grid4x6]

  /** DEFAULT_TEMPLATE */
  const DefaultTemplate: string := "3x8"

  /** A grid the page loop can walk: at least one column and one row. */
  predicate WellFormed(t: Template) {
    t.cols >= 1 && t.rows >= 1
  }

  /** The number of stickers on one page (stickersPerPage of calculateLayout). */
  function Capacity(t: Template): (c: int)
    ensures WellFormed(t) ==> c >= t.cols && c >= t.rows && c >= 1
  {
    t.cols * t.rows
  }

  /** The key a template is filed under: "<cols>x<rows>". */
  function KeyOf(t: Template): string {
    IntToString(t.cols) + "x" + IntToString(t.rows)
  }

  predicate OccursAt(s: string, part: string, i: nat) {
    i + |part| <= |s| && s[i..i + |part|] == part
  }

  /** The description states "= <capacity> " somewhere. */
  predicate StatesCapacity(t: Template) {
    exists i: nat | i <= |t.description| :: OccursAt(t.description, "= " + IntToString(Capacity(t)) + " ", i)
  }

  /** A catalog entry that is usable, filed under its own dimensions and
      describes its capacity. */
  predicate ConsistentEntry(key: string, t: Template) {
    WellFormed(t) && KeyOf(t) == key && StatesCapacity(t)
  }

  /** The decimal text of a number below 100. */
  lemma SmallNumberText(n: nat)
    requires n < 100
    ensures IntToString(n) == if n < 10 then [DigitChar(n)] else [DigitChar(n / 10), DigitChar(n % 10)]
  {
    if n >= 10 {
      assert NatToString(n) == NatToString(n / 10) + [DigitChar(n % 10)];
    }
  }

  /** A description made of a lead, "= <capacity> " and a tail states the
      capacity. */
  lemma StatesCapacityAt(t: Template, lead: string, text: string, tail: string)
    requires IntToString(Capacity(t)) == text
    requires t.description == lead + ("= " + text + " ") + tail
    ensures StatesCapacity(t)
  {
    var part := "= " + text + " ";
    assert t.description[|lead|..|lead| + |part|] == part;
    assert OccursAt(t.description, part, |lead|);
  }

  lemma Key3x8()
    ensures KeyOf(Grid3x8) == "3x8"
  {
    SmallNumberText(3);
    SmallNumberText(8);
  }

  lemma States3x8()
    ensures StatesCapacity(Grid3x8)
  {
    SmallNumberText(24);
    StatesCapacityAt(Grid3x8, "3 колонки × 8 рядов ", "24", "наклейки на лист");
  }

  lemma Entry3x8()
    ensures ConsistentEntry("3x8", Grid3x8)
  {
    Key3x8();
    States3x8();
  }

  lemma Key3x7()
    ensures KeyOf(Grid3x7) == "3x7"
  {
    SmallNumberText(3);
    SmallNumberText(7);
  }

  lemma States3x7()
    ensures StatesCapacity(Grid3x7)
  {
    SmallNumberText(21);
    StatesCapacityAt(Grid3x7, "3 колонки × 7 рядов ", "21", "наклейка на лист");
  }

  lemma Entry3x7()
    ensures ConsistentEntry("3x7", Grid3x7)
  {
    Key3x7();
    States3x7();
  }

  lemma Key2x10()
    ensures KeyOf(Grid2x10) == "2x10"
  {
    SmallNumberText(2);
    SmallNumberText(10);
  }

  lemma States2x10()
    ensures StatesCapacity(Grid2x10)
  {
    SmallNumberText(20);
    StatesCapacityAt(Grid2x10, "2 колонки × 10 рядов ", "20", "наклеек на лист");
  }

  lemma Entry2x10()
    ensures ConsistentEntry("2x10", Grid2x10)
  {
    Key2x10();
    States2x10();
  }

  lemma Key4x6()
    ensures KeyOf(Grid4x6) == "4x6"
  {
    SmallNumberText(4);
    SmallNumberText(6);
  }

  lemma States4x6()
    ensures StatesCapacity(Grid4x6)
  {
    SmallNumberText(24);
    StatesCapacityAt(Grid4x6, "4 колонки × 6 рядов ", "24", "наклейки на лист");
  }

  lemma Entry4x6()
    ensures ConsistentEntry("4x6", Grid4x6)
  {
    Key4x6();
    States4x6();
  }

  /** Every catalog entry is a usable grid filed under its own dimensions, and
      its description states its capacity; the default is in the catalog. */
  lemma CatalogIsConsistent()
    ensures DefaultTemplate in StickerTemplates
    ensures forall k :: k in StickerTemplates ==> ConsistentEntry(k, StickerTemplates[k])
  {
    Entry3x8();
    Entry3x7();
    Entry2x10();
    Entry4x6();
  }

  /** The capacities 24, 21, 20 and 24 of the four grids. */
  lemma CatalogCapacities()
    ensures Capacity(StickerTemplates["3x8"]) == 24
    ensures Capacity(StickerTemplates["3x7"]) == 21
    ensures Capacity(StickerTemplates["2x10"]) == 20
    ensures Capacity(StickerTemplates["4x6"]) == 24
  {
  }
}
