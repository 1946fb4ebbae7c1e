/**
 * The record parser: `parse_transactions` turns raw `|`-delimited lines into
 * transactions, silently dropping lines that do not have exactly 8 fields and
 * lines whose quantity or unit price does not parse once commas are removed.
 */
module Parser {
  import opened Wrappers
  import opened Text
  import opened Numbers
  import opened Records

  /** One line as the loop body handles it: `None` where the loop `continue`s. */
  function ParseLine(line: string): (r: Option<Transaction>)
    ensures r.Some? ==> Occurrences(line, '|') == 7
    ensures r.Some? ==> ',' !in r.value.productName
    ensures r.Some? ==> (
              && '|' !in r.value.transactionId && '|' !in r.value.date
              && '|' !in r.value.productId && '|' !in r.value.productName
              && '|' !in r.value.customerId && '|' !in r.value.region)
  {
    var parts := Split(line, '|');
    SplitJoin(line, '|');
    if |parts| != 8 then None
    else
      var quantity := ParseInt(RemoveChar(parts[4], ','));
      var unitPrice := ParseDecimal(RemoveChar(parts[5], ','));
      if quantity.None? || unitPrice.None? then None
      else
        Some(Transaction(parts[0], parts[1], parts[2], RemoveChar(parts[3], ','),
                         quantity.value, unitPrice.value, parts[6], parts[7]))
  }

  /** The records of the lines that parse, in the order of the lines. */
  function ParsedAll(lines: seq<string>): seq<Transaction> {
    if |lines| == 0 then []
    else
      var r := ParseLine(lines[|lines| - 1]);
      ParsedAll(lines[..|lines| - 1]) + (if r.Some? then [r.value] else [])
  }

  /** `parse_transactions(raw_lines)`. */
  method ParseTransactions(lines: seq<string>) returns (txs: seq<Transaction>)
    ensures txs == ParsedAll(lines)
    ensures |txs| <= |lines|
    ensures forall i :: 0 <= i < |txs| ==> ',' !in txs[i].productName
  {
    txs := [];
    for i := 0 to |lines|
      invariant txs == ParsedAll(lines[..i])
    {
      assert lines[..i + 1][..i] == lines[..i];
      var parts := Split(lines[i], '|');
      if |parts| != 8 {
        continue;
      }
      var quantity := ParseInt(RemoveChar(parts[4], ','));
      var unitPrice := ParseDecimal(RemoveChar(parts[5], ','));
      if quantity.None? || unitPrice.None? {
        continue;
      }
      var t := Transaction(parts[0], parts[1], parts[2], RemoveChar(parts[3], ','),
                           quantity.value, unitPrice.value, parts[6], parts[7]);
      txs := txs + [t];
    }
    assert lines[..|lines|] == lines;
    ParsedAllSpec(lines);
  }

  /** At most one record per line, and no kept product name holds a comma. */
  lemma {:induction false} ParsedAllSpec(lines: seq<string>)
    ensures |ParsedAll(lines)| <= |lines|
    ensures forall i :: 0 <= i < |ParsedAll(lines)| ==> ',' !in ParsedAll(lines)[i].productName
  {
    if |lines| > 0 {
      ParsedAllSpec(lines[..|lines| - 1]);
    }
  }

  /** Parsing works line by line: the records of two blocks of lines are the
      records of the first block followed by those of the second. */
  lemma {:induction false} ParsedAllConcat(a: seq<string>, b: seq<string>)
    ensures ParsedAll(a + b) == ParsedAll(a) + ParsedAll(b)
  {
    if |b| == 0 {
      assert a + b == a;
    } else {
      var init := b[..|b| - 1];
      ParsedAllConcat(a, init);
      assert (a + b)[..|a + b| - 1] == a + init;
      assert (a + b)[|a + b| - 1] == b[|b| - 1];
    }
  }

  /** A line written as eight `|`-free fields whose numbers parse is read back
      field for field: the product name loses its commas, the quantity and
      price are parsed without their commas, and every other field is kept verbatim. */
  lemma ParseLineOfFields(fields: seq<string>)
    requires |fields| == 8
    requires forall i :: 0 <= i < 8 ==> '|' !in fields[i]
    requires ParseInt(RemoveChar(fields[4], ',')).Some?
    requires ParseDecimal(RemoveChar(fields[5], ',')).Some?
    ensures ParseLine(Join(fields, '|')) ==
            Some(Transaction(fields[0], fields[1], fields[2], RemoveChar(fields[3], ','),
                             ParseInt(RemoveChar(fields[4], ',')).value,
                             ParseDecimal(RemoveChar(fields[5], ',')).value,
                             fields[6], fields[7]))
  {
    JoinSplit(fields, '|');
  }

  /** A line of eight `|`-free fields is dropped when its quantity or its
      unit price does not parse once commas are removed. */
  lemma ParseLineDropsBadNumbers(fields: seq<string>)
    requires |fields| == 8
    requires forall i :: 0 <= i < 8 ==> '|' !in fields[i]
    requires ParseInt(RemoveChar(fields[4], ',')).None? || ParseDecimal(RemoveChar(fields[5], ',')).None?
    ensures ParseLine(Join(fields, '|')).None?
  {
    JoinSplit(fields, '|');
  }
}
