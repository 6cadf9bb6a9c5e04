/**
 * Materials of the corpus sheet: the code dictionary in rows 7-37
 * (columns A and F), the lookup of a part's code in column B, and the
 * rules that pick a material from a part's name, thickness and row text.
 */
module Materials {
  import opened Wrappers
  import opened Text
  import opened Cells
  import opened Patterns

  /** A dictionary entry: material name and the thickness written in it. */
  type MaterialInfo = (string, Option<int>)

  type MaterialDict = map<string, MaterialInfo>

  const FirstDictRow: nat := 6
  const EndDictRow: nat := 37
  const NameCol: nat := 0
  const CodeCol: nat := 5

  /** Cell `(r, c)` when the sheet has it, else None (the source reads None then). */
  function CellOrNone(df: Frame, r: nat, c: nat): Option<Cell> {
    if r < |df.rows| && c < df.width then Some(At(df, r, c)) else None
  }

  /** What row `idx` contributes to the dictionary, if anything: code and entry. */
  function DictEntry(df: Frame, idx: nat): (e: Option<(string, MaterialInfo)>)
    ensures e.Some? ==> e.value.0 != ""
  {
    var nameVal := CellOrNone(df, idx, NameCol);
    var codeVal := CellOrNone(df, idx, CodeCol);
    if nameVal.None? || codeVal.None? || IsNa(nameVal.value) || IsNa(codeVal.value) then None
    else
      var name := Strip(CellStr(nameVal.value));
      var code := NormalizeCode(codeVal.value);
      if code == "" then None
      else Some((code, (name, ThicknessSearch(Lower(name)))))
  }

  /** A dictionary row's contribution: nothing, or a code with its entry. */
  type DictRow = Option<(string, MaterialInfo)>

  /** The contributions of rows 7-37, in order. */
  function DictRows(df: Frame): (rows: seq<DictRow>)
    ensures |rows| == EndDictRow - FirstDictRow
    ensures forall i :: 0 <= i < |rows| ==> rows[i] == DictEntry(df, FirstDictRow + i)
  {
    seq(EndDictRow - FirstDictRow, i requires 0 <= i < EndDictRow - FirstDictRow => DictEntry(df, FirstDictRow + i))
  }

  /** The dictionary the rows build, a later row overwriting an earlier one with the same code. */
  function Fold(rows: seq<DictRow>): MaterialDict {
    if rows == [] then map[]
    else
      var d := Fold(rows[..|rows| - 1]);
      match rows[|rows| - 1]
      case None => d
      case Some((code, info)) => d[code := info]
  }

  /** `_parse_material_dictionary_correct`. */
  method ParseMaterialDictionary(df: Frame) returns (dict: MaterialDict)
    ensures dict == Fold(DictRows(df))
  {
    var rows := DictRows(df);
    dict := map[];
    var idx := FirstDictRow;
    while idx < EndDictRow
      invariant FirstDictRow <= idx <= EndDictRow
      invariant dict == Fold(rows[..idx - FirstDictRow])
    {
      var k := idx - FirstDictRow;
      var entry := DictEntry(df, idx);
      assert entry == rows[k];
      FoldSnoc(rows, k);
      if entry.Some? {
        dict := dict[entry.value.0 := entry.value.1];
      }
      assert dict == Fold(rows[..k + 1]);
      idx := idx + 1;
    }
    assert rows[..EndDictRow - FirstDictRow] == rows;
  }

  /** One more row updates the dictionary by its contribution. */
  lemma FoldSnoc(rows: seq<DictRow>, k: nat)
    requires k < |rows|
    ensures rows[k].None? ==> Fold(rows[..k + 1]) == Fold(rows[..k])
    ensures rows[k].Some? ==> Fold(rows[..k + 1]) == Fold(rows[..k])[rows[k].value.0 := rows[k].value.1]
  {
    assert rows[..k + 1][..k] == rows[..k];
  }

  /** A code is in the dictionary exactly when some row has it, and it holds the entry of
      the last row with that code. */
  lemma FoldLastWins(rows: seq<DictRow>, code: string)
    ensures code in Fold(rows) <==>
      exists i :: 0 <= i < |rows| && rows[i].Some? && rows[i].value.0 == code
    ensures code in Fold(rows) ==>
      exists i :: 0 <= i < |rows| && rows[i] == Some((code, Fold(rows)[code]))
        && forall j :: i < j < |rows| && rows[j].Some? ==> rows[j].value.0 != code
  {
    FoldHasCode(rows, code);
    if code in Fold(rows) {
      FoldLastRow(rows, code);
    }
  }

  /** A code is in the dictionary exactly when some row has it. */
  lemma {:induction false} FoldHasCode(rows: seq<DictRow>, code: string)
    ensures code in Fold(rows) <==> exists i :: 0 <= i < |rows| && rows[i].Some? && rows[i].value.0 == code
  {
    if rows != [] {
      var init := rows[..|rows| - 1];
      FoldHasCode(init, code);
      if exists i :: 0 <= i < |rows| && rows[i].Some? && rows[i].value.0 == code {
        var i :| 0 <= i < |rows| && rows[i].Some? && rows[i].value.0 == code;
        if i < |init| {
          assert init[i] == rows[i];
        }
      }
    }
  }

  /** A code in the dictionary holds the entry of the last row with that code. */
  lemma {:induction false} FoldLastRow(rows: seq<DictRow>, code: string)
    requires code in Fold(rows)
    ensures exists i :: (0 <= i < |rows| && rows[i] == Some((code, Fold(rows)[code]))
                         && forall j :: i < j < |rows| && rows[j].Some? ==> rows[j].value.0 != code)
  {
    var init := rows[..|rows| - 1];
    var last := rows[|rows| - 1];
    if last.Some? && last.value.0 == code {
      assert rows[|rows| - 1] == Some((code, Fold(rows)[code]));
    } else {
      if last.None? {
        assert Fold(rows) == Fold(init);
      } else {
        assert Fold(rows) == Fold(init)[last.value.0 := last.value.1];
      }
      assert code in Fold(init) && Fold(init)[code] == Fold(rows)[code];
      FoldLastRow(init, code);
      var i :| 0 <= i < |init| && init[i] == Some((code, Fold(init)[code]))
        && forall j :: i < j < |init| && init[j].Some? ==> init[j].value.0 != code;
      assert rows[i] == Some((code, Fold(rows)[code]));
    }
  }

  /** Rows with non-empty codes build a dictionary without an empty key. */
  lemma {:induction false} FoldKeysNonEmpty(rows: seq<DictRow>)
    requires forall i :: 0 <= i < |rows| && rows[i].Some? ==> rows[i].value.0 != ""
    ensures "" !in Fold(rows)
  {
    if rows != [] {
      FoldKeysNonEmpty(rows[..|rows| - 1]);
    }
  }

  /** `_apply_material_from_code`: the entry for the code in column B, if the dictionary has one. */
  function ApplyMaterialFromCode(row: seq<Cell>, dict: MaterialDict): (r: (Option<string>, Option<int>))
    ensures r.0.Some? <==> (|row| >= 2 && !IsNa(row[1]) && NormalizeCode(row[1]) != "" && NormalizeCode(row[1]) in dict)
    ensures r.0.Some? ==> (r.0.value, r.1) == dict[NormalizeCode(row[1])]
    ensures r.0.None? ==> r.1.None?
  {
    if |row| < 2 || IsNa(row[1]) then (None, None)
    else
      var code := NormalizeCode(row[1]);
      if code == "" then (None, None)
      else if code in dict then (Some(dict[code].0), dict[code].1)
      else (None, None)
  }

  /** A part whose code cell holds an integer finds the dictionary row whose code is
      that integer written as text. */
  lemma ApplyIntegerCode(row: seq<Cell>, dict: MaterialDict, n: int)
    requires |row| >= 2 && row[1] == Int(n) && IntToString(n) in dict
    ensures ApplyMaterialFromCode(row, dict) == (Some(dict[IntToString(n)].0), dict[IntToString(n)].1)
  {
  }

  // ---------------------------------------------------------------------------
  // _determine_material

  const Ldsp := "ЛДСП"
  const Mdf := "МДФ"
  const Plywood := "Фанера"
  const Egger16 := "ЛДСП Egger 16мм"

  /** The text the rules look at: the row context, lower-cased, or the name when that is empty. */
  function MaterialContext(name: string, rowContext: Option<string>): string {
    var ctx := Lower(rowContext.GetOr(""));
    if ctx == "" then Lower(name) else ctx
  }

  /** The material before the facade rule: the first rule that applies. */
  function BaseMaterial(context: string, thickness: Option<int>): string {
    if Contains(context, "мдф") || thickness == Some(18) then Mdf
    else if Contains(context, "фанера") || thickness in {Some(20), Some(24), Some(27)} then Plywood
    else if Contains(context, "egger 16") || thickness == Some(16) then Egger16
    else Ldsp
  }

  /** `_determine_material`. */
  function DetermineMaterial(name: string, thickness: Option<int>, rowContext: Option<string>): (m: string)
    ensures m in {Ldsp, Mdf, Plywood, Egger16}
    ensures m == Mdf <==>
      BaseMaterial(MaterialContext(name, rowContext), thickness) == Mdf
      && !(Contains(Lower(name), "фасад") && HasZeroOps(MaterialContext(name, rowContext)))
    ensures m == Plywood <==> BaseMaterial(MaterialContext(name, rowContext), thickness) == Plywood
    ensures m == Egger16 <==> BaseMaterial(MaterialContext(name, rowContext), thickness) == Egger16
  {
    var ctx := MaterialContext(name, rowContext);
    var material := BaseMaterial(ctx, thickness);
    if Contains(Lower(name), "фасад") && material == Mdf && HasZeroOps(ctx) then Ldsp else material
  }

  /** The material chosen is never empty, so a chosen material is always truthy. */
  lemma DetermineMaterialNonEmpty(name: string, thickness: Option<int>, rowContext: Option<string>)
    ensures DetermineMaterial(name, thickness, rowContext) != ""
  {
  }

  /** 18 mm means MDF, unless the part is a facade whose row marks zero-cost finishing. */
  lemma EighteenIsMdf(name: string, rowContext: Option<string>)
    requires !Contains(Lower(name), "фасад")
    ensures DetermineMaterial(name, Some(18), rowContext) == Mdf
  {
  }

  /** An MDF facade with a free-standing "0,00" in its (lower-case) row text is downgraded to chipboard. */
  lemma ZeroCostFacadeIsChipboard(name: string, pre: string, post: string)
    requires Contains(Lower(name), "фасад") && Contains(pre, "мдф")
    requires pre == [] || !IsWordChar(pre[|pre| - 1])
    requires post == [] || (!IsWordChar(post[0]) && post[0] != '0')
    requires Lower(pre + "0,00" + post) == pre + "0,00" + post
    ensures DetermineMaterial(name, None, Some(pre + "0,00" + post)) == Ldsp
  {
    var ctx := pre + "0,00" + post;
    ZeroCostContext(pre, post, ctx);
    FacadeDowngrade(name, ctx);
  }

  lemma ZeroCostContext(pre: string, post: string, ctx: string)
    requires Contains(pre, "мдф")
    requires pre == [] || !IsWordChar(pre[|pre| - 1])
    requires post == [] || (!IsWordChar(post[0]) && post[0] != '0')
    requires ctx == pre + "0,00" + post
    ensures HasZeroOps(ctx) && Contains(ctx, "мдф") && ctx != ""
  {
    ZeroOpsWritten(pre, post);
    ContainsBefore(pre, "0,00", "мдф");
    ContainsBefore(pre + "0,00", post, "мдф");
    assert |ctx| >= 4;
  }

  lemma ContainsBefore(a: string, b: string, k: string)
    requires Contains(a, k)
    ensures Contains(a + b, k)
  {
    ContainsInfix([], a, b, k);
    assert [] + a + b == a + b;
  }

  /** The facade rule: MDF in a lower-case row text with zero-cost operations becomes chipboard. */
  lemma FacadeDowngrade(name: string, ctx: string)
    requires Contains(Lower(name), "фасад") && Contains(ctx, "мдф") && HasZeroOps(ctx)
    requires Lower(ctx) == ctx && ctx != ""
    ensures DetermineMaterial(name, None, Some(ctx)) == Ldsp
  {
    assert MaterialContext(name, Some(ctx)) == ctx;
    assert BaseMaterial(ctx, None) == Mdf;
  }
}
