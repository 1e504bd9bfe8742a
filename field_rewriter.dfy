/**
 * The field rewriter: every alias key of stock, under-order and price that a
 * record carries is overwritten with that field's fixed replacement string.
 */
module FieldRewriter {
  import opened Wrappers
  import opened Json

  /** Replacement values (json_cleaner.py:35-37). */
  const NewStockValue: string := "188"
  const NewUnderOrderValue: string := "5-8 дней"
  const NewPriceValue: string := "110 руб"

  /**
   * The replacement an alias key takes: the two stock aliases, the three
   * under-order aliases and the two price aliases; any other key has none.
   */
  function ReplacementFor(key: string): Option<string>
  {
    if key == "Цена" || key == "price" then Some(NewPriceValue)
    else if key == "Под заказ" || key == "under-order" || key == "under_order" then Some(NewUnderOrderValue)
    else if key == "Склад" || key == "stock" then Some(NewStockValue)
    else None
  }

  /**
   * The record with the replacements laid over the alias keys it already
   * has: keys are neither added nor removed, and a non-alias key keeps its value.
   */
  function Rewritten(record: Record): (result: Record)
    ensures result.Keys == record.Keys
    ensures forall k :: k in record && ReplacementFor(k).Some? ==> result[k] == Str(ReplacementFor(k).value)
    ensures forall k :: k in record && ReplacementFor(k).None? ==> result[k] == record[k]
  {
    map k | k in record :: if ReplacementFor(k).Some? then Str(ReplacementFor(k).value) else record[k]
  }

  /** One guarded overwrite: `key` takes `value` if the record has it, and nothing else changes. */
  function Put(record: Record, key: string, value: string): Record
  {
    if key in record then record[key := Str(value)] else record
  }

  /** What one guarded overwrite does to each key. */
  lemma PutEffect(record: Record, key: string, value: string)
    ensures Put(record, key, value).Keys == record.Keys
    ensures forall k :: k in record ==> Put(record, key, value)[k] == if k == key then Str(value) else record[k]
  {
  }

  /** The seven guarded overwrites in the source's order. */
  function Puts(record: Record): Record
  {
    Put(Put(Put(Put(Put(Put(Put(record,
      "stock", NewStockValue), "Склад", NewStockValue),
      "under_order", NewUnderOrderValue), "under-order", NewUnderOrderValue), "Под заказ", NewUnderOrderValue),
      "price", NewPriceValue), "Цена", NewPriceValue)
  }

  /** What the seven overwrites leave at each key: the last overwrite naming the key wins. */
  lemma PutsEffect(record: Record)
    ensures Puts(record).Keys == record.Keys
    ensures forall k :: k in record ==>
      Puts(record)[k] ==
        if k == "Цена" || k == "price" then Str(NewPriceValue)
        else if k == "Под заказ" || k == "under-order" || k == "under_order" then Str(NewUnderOrderValue)
        else if k == "Склад" || k == "stock" then Str(NewStockValue)
        else record[k]
  {
    var r1 := Put(record, "stock", NewStockValue);
    var r2 := Put(r1, "Склад", NewStockValue);
    var r3 := Put(r2, "under_order", NewUnderOrderValue);
    var r4 := Put(r3, "under-order", NewUnderOrderValue);
    var r5 := Put(r4, "Под заказ", NewUnderOrderValue);
    var r6 := Put(r5, "price", NewPriceValue);
    PutEffect(record, "stock", NewStockValue);
    PutEffect(r1, "Склад", NewStockValue);
    PutEffect(r2, "under_order", NewUnderOrderValue);
    PutEffect(r3, "under-order", NewUnderOrderValue);
    PutEffect(r4, "Под заказ", NewUnderOrderValue);
    PutEffect(r5, "price", NewPriceValue);
    PutEffect(r6, "Цена", NewPriceValue);
  }

  /** The seven overwrites together lay every replacement over the record. */
  lemma PutsMakeRewritten(record: Record)
    ensures Puts(record) == Rewritten(record)
  {
    PutsEffect(record);
    var puts, rewritten := Puts(record), Rewritten(record);
    forall k | k in record
      ensures puts[k] == rewritten[k]
    {
    }
  }

  /** The source's seven guarded overwrites, one alias at a time, in its order. */
  method ReplaceFieldValues(record: Record) returns (result: Record)
    ensures result == Rewritten(record)
  {
    result := record;
    if "stock" in result { result := result["stock" := Str(NewStockValue)]; }
    assert result == Put(record, "stock", NewStockValue);
    ghost var r1 := result;
    if "Склад" in result { result := result["Склад" := Str(NewStockValue)]; }
    assert result == Put(r1, "Склад", NewStockValue);
    ghost var r2 := result;
    if "under_order" in result { result := result["under_order" := Str(NewUnderOrderValue)]; }
    assert result == Put(r2, "under_order", NewUnderOrderValue);
    ghost var r3 := result;
    if "under-order" in result { result := result["under-order" := Str(NewUnderOrderValue)]; }
    assert result == Put(r3, "under-order", NewUnderOrderValue);
    ghost var r4 := result;
    if "Под заказ" in result { result := result["Под заказ" := Str(NewUnderOrderValue)]; }
    assert result == Put(r4, "Под заказ", NewUnderOrderValue);
    ghost var r5 := result;
    if "price" in result { result := result["price" := Str(NewPriceValue)]; }
    assert result == Put(r5, "price", NewPriceValue);
    ghost var r6 := result;
    if "Цена" in result { result := result["Цена" := Str(NewPriceValue)]; }
    assert result == Put(r6, "Цена", NewPriceValue);
    PutsMakeRewritten(record);
  }

  /** Rewriting an already rewritten record changes nothing. */
  lemma RewrittenIdempotent(record: Record)
    ensures Rewritten(Rewritten(record)) == Rewritten(record)
  {
    var once := Rewritten(record);
    var twice := Rewritten(once);
    assert twice.Keys == once.Keys;
    forall k | k in once ensures twice[k] == once[k] {
    }
  }

  /** Neither title key is an alias, so rewriting leaves the title where it was. */
  lemma RewrittenKeepsTitle(record: Record)
    ensures TitleOf(Rewritten(record)) == TitleOf(record)
  {
    assert ReplacementFor(TitleKeyName).None? && ReplacementFor(LocalTitleKeyName).None?;
  }
}
