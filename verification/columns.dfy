/**
 * The column picker of the detail table: the options it offers, the
 * grouped table's column each option maps to, the display names, and the
 * list of columns the table is cut down to.
 */
module Columns {
  import opened Ordering

  /** The options of the column picker: columns of the row view. */
  datatype Pickable =
    | NameOption | CategoryOption | UnitPriceOption | UnitCostOption
    | QuantityOption | ValueOption | ProfitOption | MarginOption

  /** The columns of the grouped table. */
  datatype Column =
    | NameColumn | CategoryColumn | UnitPriceColumn | UnitCostColumn
    | TotalQuantityColumn | TotalRevenueColumn | TotalProfitColumn | AverageMarginColumn

  /** The options in the order they are offered. */
  const Offered: seq<Pickable> := [
    NameOption, CategoryOption, UnitPriceOption, UnitCostOption,
    QuantityOption, ValueOption, ProfitOption, MarginOption]

  /** The options picked by default. */
  const DefaultColumns: seq<Pickable> := [NameOption, CategoryOption, QuantityOption, ValueOption, ProfitOption]

  /** Where an option is offered. */
  function Position(p: Pickable): (i: nat)
    ensures i < |Offered| && Offered[i] == p
  {
    match p
    case NameOption => 0
    case CategoryOption => 1
    case UnitPriceOption => 2
    case UnitCostOption => 3
    case QuantityOption => 4
    case ValueOption => 5
    case ProfitOption => 6
    case MarginOption => 7
  }

  /** The grouped table's column an option maps to. */
  function GroupedOf(p: Pickable): Column {
    match p
    case NameOption => NameColumn
    case CategoryOption => CategoryColumn
    case UnitPriceOption => UnitPriceColumn
    case UnitCostOption => UnitCostColumn
    case QuantityOption => TotalQuantityColumn
    case ValueOption => TotalRevenueColumn
    case ProfitOption => TotalProfitColumn
    case MarginOption => AverageMarginColumn
  }

  /** The option's name: the row view's column. */
  function OptionName(p: Pickable): string {
    match p
    case NameOption => "nome_produto"
    case CategoryOption => "categoria_produto"
    case UnitPriceOption => "preco_venda_unitario"
    case UnitCostOption => "preco_custo"
    case QuantityOption => "quantidade_vendida"
    case ValueOption => "valor_total_venda"
    case ProfitOption => "lucro_venda"
    case MarginOption => "margem_lucro_percentual"
  }

  /** The grouped table's name for a column. */
  function ColumnName(c: Column): string {
    match c
    case NameColumn => "nome_produto"
    case CategoryColumn => "categoria_produto"
    case UnitPriceColumn => "preco_venda_unitario"
    case UnitCostColumn => "preco_custo"
    case TotalQuantityColumn => "quantidade_total_vendida"
    case TotalRevenueColumn => "valor_total_arrecadado"
    case TotalProfitColumn => "lucro_total_gerado"
    case AverageMarginColumn => "margem_lucro_media_percentual"
  }

  /** The header a column is shown under. */
  function DisplayName(c: Column): string {
    match c
    case NameColumn => "Produto"
    case CategoryColumn => "Categoria"
    case UnitPriceColumn => "Preço Unit. (R$)"
    case UnitCostColumn => "Custo Unit. (R$)"
    case TotalQuantityColumn => "Qtd. Vendida Total"
    case TotalRevenueColumn => "Receita Total (R$)"
    case TotalProfitColumn => "Lucro Total (R$)"
    case AverageMarginColumn => "Margem Lucro Média (%)"
  }

  /** The mapping is one to one: distinct options map to distinct columns. */
  lemma GroupedOfInjective(p: Pickable, q: Pickable)
    requires p != q
    ensures GroupedOf(p) != GroupedOf(q)
  {
  }

  /** The offered options have distinct names. */
  lemma OptionNamesDistinct(p: Pickable, q: Pickable)
    requires p != q
    ensures OptionName(p) != OptionName(q)
  {
  }

  /** The grouped columns have distinct names and distinct headers. */
  lemma ColumnNamesDistinct(c: Column, d: Column)
    requires c != d
    ensures ColumnName(c) != ColumnName(d)
    ensures DisplayName(c) != DisplayName(d)
  {
  }

  /** Where a column stands in the grouped table: where its option is offered. */
  function ColumnPosition(c: Column): (i: nat)
    ensures i < |Offered| && GroupedOf(Offered[i]) == c
  {
    match c
    case NameColumn => 0
    case CategoryColumn => 1
    case UnitPriceColumn => 2
    case UnitCostColumn => 3
    case TotalQuantityColumn => 4
    case TotalRevenueColumn => 5
    case TotalProfitColumn => 6
    case AverageMarginColumn => 7
  }

  /**
   * The grouped columns of the options offered before position `upTo`
   * that were picked, in the order offered.
   */
  function ShownUpTo(selected: seq<Pickable>, upTo: nat): (cols: seq<Column>)
    requires upTo <= |Offered|
  {
    if upTo == 0 then []
    else
      var p := Offered[upTo - 1];
      ShownUpTo(selected, upTo - 1) + if p in selected then [GroupedOf(p)] else []
  }

  /** The grouped columns of the picked options (the list the table is cut down to). */
  function ShownColumns(selected: seq<Pickable>): seq<Column> {
    ShownUpTo(selected, |Offered|)
  }

  /**
   * The column list built by appending, one test per option, the grouped
   * column of each picked one.
   */
  method ColumnsToShow(selected: seq<Pickable>) returns (cols: seq<Column>)
    ensures cols == ShownColumns(selected)
  {
    cols := [];
    if NameOption in selected { cols := cols + [NameColumn]; }
    assert cols == ShownUpTo(selected, 1);
    if CategoryOption in selected { cols := cols + [CategoryColumn]; }
    assert cols == ShownUpTo(selected, 2);
    if UnitPriceOption in selected { cols := cols + [UnitPriceColumn]; }
    assert cols == ShownUpTo(selected, 3);
    if UnitCostOption in selected { cols := cols + [UnitCostColumn]; }
    assert cols == ShownUpTo(selected, 4);
    if QuantityOption in selected { cols := cols + [TotalQuantityColumn]; }
    assert cols == ShownUpTo(selected, 5);
    if ValueOption in selected { cols := cols + [TotalRevenueColumn]; }
    assert cols == ShownUpTo(selected, 6);
    if ProfitOption in selected { cols := cols + [TotalProfitColumn]; }
    assert cols == ShownUpTo(selected, 7);
    if MarginOption in selected { cols := cols + [AverageMarginColumn]; }
  }

  /** A column is shown exactly when its option was picked. */
  lemma {:induction false} ShownMembership(selected: seq<Pickable>, upTo: nat)
    requires upTo <= |Offered|
    ensures forall p :: GroupedOf(p) in ShownUpTo(selected, upTo) <==> p in selected && Position(p) < upTo
  {
    if upTo > 0 {
      ShownMembership(selected, upTo - 1);
      var q := Offered[upTo - 1];
      forall p ensures GroupedOf(p) in ShownUpTo(selected, upTo) <==> p in selected && Position(p) < upTo {
        if p != q {
          GroupedOfInjective(p, q);
        }
      }
    }
  }

  /** Every shown column is the column of a picked option. */
  lemma {:induction false} ShownArePicked(selected: seq<Pickable>, upTo: nat)
    requires upTo <= |Offered|
    ensures forall c :: c in ShownUpTo(selected, upTo) ==> Offered[ColumnPosition(c)] in selected && ColumnPosition(c) < upTo
  {
    if upTo > 0 {
      ShownArePicked(selected, upTo - 1);
      var q := Offered[upTo - 1];
      forall c | c in ShownUpTo(selected, upTo)
        ensures Offered[ColumnPosition(c)] in selected && ColumnPosition(c) < upTo
      {
        if c !in ShownUpTo(selected, upTo - 1) {
          assert c == GroupedOf(q);
          if Offered[ColumnPosition(c)] != q {
            GroupedOfInjective(Offered[ColumnPosition(c)], q);
          }
        }
      }
    }
  }

  /**
   * The shown columns are in the fixed order of the grouped table (by the
   * position their options are offered at), so no column is shown twice,
   * even when the user's list repeats an entry.
   */
  lemma {:induction false} ShownInOfferedOrder(selected: seq<Pickable>, upTo: nat)
    requires upTo <= |Offered|
    ensures forall i, j :: 0 <= i < j < |ShownUpTo(selected, upTo)| ==>
      ColumnPosition(ShownUpTo(selected, upTo)[i]) < ColumnPosition(ShownUpTo(selected, upTo)[j])
  {
    if upTo > 0 {
      ShownInOfferedOrder(selected, upTo - 1);
      ShownArePicked(selected, upTo - 1);
      var before := ShownUpTo(selected, upTo - 1);
      var cols := ShownUpTo(selected, upTo);
      var q := Offered[upTo - 1];
      if q in selected {
        assert ColumnPosition(GroupedOf(q)) == upTo - 1 by {
          if Offered[ColumnPosition(GroupedOf(q))] != q {
            GroupedOfInjective(Offered[ColumnPosition(GroupedOf(q))], q);
          }
        }
        forall i, j | 0 <= i < j < |cols| ensures ColumnPosition(cols[i]) < ColumnPosition(cols[j]) {
          assert cols[i] == before[i] && cols[i] in before;
          if j < |before| {
            assert cols[j] == before[j];
          }
        }
      }
    }
  }

  /**
   * The table's columns are the grouped columns of exactly the picked
   * options, each once, in the fixed order of the grouped table.
   */
  lemma ShownColumnsCanonical(selected: seq<Pickable>)
    ensures forall p :: GroupedOf(p) in ShownColumns(selected) <==> p in selected
    ensures forall i, j :: 0 <= i < j < |ShownColumns(selected)| ==>
      ColumnPosition(ShownColumns(selected)[i]) < ColumnPosition(ShownColumns(selected)[j])
    ensures NoDuplicates(ShownColumns(selected))
  {
    ShownMembership(selected, |Offered|);
    ShownInOfferedOrder(selected, |Offered|);
  }

  /** Only which options were picked matters, not their order or repetition. */
  lemma {:induction false} ShownIgnoresSelectionOrder(a: seq<Pickable>, b: seq<Pickable>, upTo: nat)
    requires upTo <= |Offered|
    requires forall p :: p in a <==> p in b
    ensures ShownUpTo(a, upTo) == ShownUpTo(b, upTo)
  {
    if upTo > 0 {
      ShownIgnoresSelectionOrder(a, b, upTo - 1);
    }
  }

  /** The default pick shows name, category, total quantity, revenue and profit, in that order. */
  lemma DefaultColumnsShown()
    ensures ShownColumns(DefaultColumns) ==
      [NameColumn, CategoryColumn, TotalQuantityColumn, TotalRevenueColumn, TotalProfitColumn]
  {
    var d := DefaultColumns;
    assert ShownUpTo(d, 2) == [NameColumn, CategoryColumn];
    assert ShownUpTo(d, 4) == [NameColumn, CategoryColumn];
    assert ShownUpTo(d, 7) == [NameColumn, CategoryColumn, TotalQuantityColumn, TotalRevenueColumn, TotalProfitColumn];
  }
}
