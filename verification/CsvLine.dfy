/** Quote-aware splitting of one CSV line. The two plugins carry two copies of the splitter
    (plugins/builtin-csv/src/csvline.rs:6-33 and plugins/aibench-llama/src/csvline.rs:23-51)
    that differ in one condition: where a quote may open. */
module CsvLine {
  import opened Common

  const QUOTE: char := '"'

  datatype Dialect = BuiltinCsv | AibenchLlama

  predicate Opens(dialect: Dialect, cur: string) {
    dialect.AibenchLlama? || cur == ""
  }

  datatype Cursor = Cursor(fields: seq<string>, cur: string, inQuotes: bool)

  function Push(c: Cursor, ch: char): Cursor {
    c.(cur := c.cur + [ch])
  }

  /** The fields found when the rest of the line is read from this cursor on. */
  function Scan(dialect: Dialect, delim: char, c: Cursor, rest: string): seq<string>
    decreases |rest|
  {
    if rest == "" then c.fields + [c.cur]
    else if c.inQuotes then
      if rest[0] != QUOTE then Scan(dialect, delim, Push(c, rest[0]), rest[1..])
      else if |rest| > 1 && rest[1] == QUOTE then Scan(dialect, delim, Push(c, QUOTE), rest[2..])
      else Scan(dialect, delim, c.(inQuotes := false), rest[1..])
    else if rest[0] == QUOTE && Opens(dialect, c.cur) then
      Scan(dialect, delim, c.(inQuotes := true), rest[1..])
    else if rest[0] == delim then Scan(dialect, delim, Cursor(c.fields + [c.cur], "", false), rest[1..])
    else Scan(dialect, delim, Push(c, rest[0]), rest[1..])
  }

  const ORIGIN := Cursor([], "", false)

  function Split(dialect: Dialect, delim: char, line: string): seq<string> {
    Scan(dialect, delim, ORIGIN, line)
  }

  method SplitLine(dialect: Dialect, delim: char, line: string) returns (fields: seq<string>)
    ensures fields == Split(dialect, delim, line)
  {
    fields := [];
    var cur, inQuotes, i := "", false, 0;
    while i < |line|
      invariant i <= |line|
      invariant Scan(dialect, delim, Cursor(fields, cur, inQuotes), line[i..]) == Split(dialect, delim, line)
    {
      var c := line[i];
      assert line[i..][0] == c && line[i..][1..] == line[i + 1..];
      if inQuotes {
        if c == QUOTE {
          if i + 1 < |line| && line[i + 1] == QUOTE {
            assert line[i..][2..] == line[i + 2..];
            i := i + 1;
            cur := cur + [QUOTE];
          } else {
            inQuotes := false;
          }
        } else {
          cur := cur + [c];
        }
      } else if c == QUOTE && Opens(dialect, cur) {
        inQuotes := true;
      } else if c == delim {
        fields, cur := fields + [cur], "";
      } else {
        cur := cur + [c];
      }
      i := i + 1;
    }
    fields := fields + [cur];
  }

  // ---- Printing --------------------------------------------------------------------------------

  /** RFC 4180, section 2, rule 7: a quote inside a quoted field is doubled. */
  function Escaped(field: string): string {
    if field == "" then ""
    else (if field[0] == QUOTE then [QUOTE, QUOTE] else [field[0]]) + Escaped(field[1..])
  }

  datatype Cell = Cell(text: string, quoted: bool)

  /** Rules 5 and 6: only a field without delimiters and quotes may go unquoted. */
  predicate Printable(delim: char, cell: Cell) {
    cell.quoted || (delim !in cell.text && QUOTE !in cell.text)
  }

  function PrintCell(cell: Cell): string {
    if cell.quoted then [QUOTE] + (Escaped(cell.text) + [QUOTE]) else cell.text
  }

  function PrintLine(delim: char, cells: seq<Cell>): string
    requires cells != []
  {
    if |cells| == 1 then PrintCell(cells[0])
    else PrintCell(cells[0]) + ([delim] + PrintLine(delim, cells[1..]))
  }

  function Texts(cells: seq<Cell>): seq<string> {
    if cells == [] then [] else [cells[0].text] + Texts(cells[1..])
  }

  lemma {:induction false} ScanPlain(dialect: Dialect, delim: char, c: Cursor, text: string, tail: string)
    requires !c.inQuotes && delim !in text && QUOTE !in text
    ensures Scan(dialect, delim, c, text + tail) == Scan(dialect, delim, c.(cur := c.cur + text), tail)
    decreases |text|
  {
    if text == "" {
      assert text + tail == tail && c.cur + text == c.cur;
    } else {
      assert (text + tail)[1..] == text[1..] + tail;
      assert c.cur + [text[0]] + text[1..] == c.cur + text;
      ScanPlain(dialect, delim, Push(c, text[0]), text[1..], tail);
    }
  }

  lemma {:induction false} ScanEscaped(dialect: Dialect, delim: char, c: Cursor, text: string, tail: string)
    requires c.inQuotes && (tail == "" || tail[0] != QUOTE)
    ensures Scan(dialect, delim, c, Escaped(text) + ([QUOTE] + tail)) ==
            Scan(dialect, delim, Cursor(c.fields, c.cur + text, false), tail)
    decreases |text|
  {
    var rest := Escaped(text) + ([QUOTE] + tail);
    if text == "" {
      assert rest == [QUOTE] + tail && rest[1..] == tail && c.cur + text == c.cur;
    } else {
      var after := Escaped(text[1..]) + ([QUOTE] + tail);
      assert rest == (if text[0] == QUOTE then [QUOTE, QUOTE] else [text[0]]) + after;
      assert rest[if text[0] == QUOTE then 2 else 1..] == after;
      assert c.cur + [text[0]] + text[1..] == c.cur + text;
      ScanEscaped(dialect, delim, Push(c, text[0]), text[1..], tail);
    }
  }

  lemma ScanCell(dialect: Dialect, delim: char, fields: seq<string>, cell: Cell, tail: string)
    requires Printable(delim, cell) && (tail == "" || tail[0] != QUOTE)
    ensures Scan(dialect, delim, Cursor(fields, "", false), PrintCell(cell) + tail) ==
            Scan(dialect, delim, Cursor(fields, cell.text, false), tail)
  {
    var c := Cursor(fields, "", false);
    if cell.quoted {
      var inner := Escaped(cell.text) + ([QUOTE] + tail);
      assert PrintCell(cell) + tail == [QUOTE] + inner;
      assert ([QUOTE] + inner)[1..] == inner;
      ScanEscaped(dialect, delim, c.(inQuotes := true), cell.text, tail);
    } else {
      ScanPlain(dialect, delim, c, cell.text, tail);
    }
    assert "" + cell.text == cell.text;
  }

  lemma ScanDelim(dialect: Dialect, delim: char, fields: seq<string>, cur: string, rest: string)
    requires delim != QUOTE
    ensures Scan(dialect, delim, Cursor(fields, cur, false), [delim] + rest) ==
            Scan(dialect, delim, Cursor(fields + [cur], "", false), rest)
  {
    assert ([delim] + rest)[1..] == rest;
  }

  lemma {:induction false} ScanCells(dialect: Dialect, delim: char, fields: seq<string>, cells: seq<Cell>)
    requires delim != QUOTE && cells != [] && forall c :: c in cells ==> Printable(delim, c)
    ensures Scan(dialect, delim, Cursor(fields, "", false), PrintLine(delim, cells)) == fields + Texts(cells)
    decreases |cells|
  {
    var cell := cells[0];
    if |cells| == 1 {
      ScanCell(dialect, delim, fields, cell, "");
      assert PrintCell(cell) + "" == PrintCell(cell);
      assert Texts(cells) == [cell.text] + [];
    } else {
      var tail := [delim] + PrintLine(delim, cells[1..]);
      ScanCell(dialect, delim, fields, cell, tail);
      ScanDelim(dialect, delim, fields, cell.text, PrintLine(delim, cells[1..]));
      ScanCells(dialect, delim, fields + [cell.text], cells[1..]);
      SumAssoc(fields, [cell.text], Texts(cells[1..]));
    }
  }

  /** Splitting undoes printing, in both copies and for every delimiter but the quote. */
  lemma SplitUndoesPrint(dialect: Dialect, delim: char, cells: seq<Cell>)
    requires delim != QUOTE && cells != [] && forall c :: c in cells ==> Printable(delim, c)
    ensures Split(dialect, delim, PrintLine(delim, cells)) == Texts(cells)
  {
    ScanCells(dialect, delim, [], cells);
    assert [] + Texts(cells) == Texts(cells);
  }

  // ---- Where the two copies part --------------------------------------------------------------------

  /** The builtin splitter meets a quote inside a non-empty field that is not quoted. */
  predicate BareQuote(delim: char, c: Cursor, rest: string)
    decreases |rest|
  {
    if rest == "" then false
    else if c.inQuotes then
      if rest[0] != QUOTE then BareQuote(delim, Push(c, rest[0]), rest[1..])
      else if |rest| > 1 && rest[1] == QUOTE then BareQuote(delim, Push(c, QUOTE), rest[2..])
      else BareQuote(delim, c.(inQuotes := false), rest[1..])
    else if rest[0] == QUOTE then c.cur != "" || BareQuote(delim, c.(inQuotes := true), rest[1..])
    else if rest[0] == delim then BareQuote(delim, Cursor(c.fields + [c.cur], "", false), rest[1..])
    else BareQuote(delim, Push(c, rest[0]), rest[1..])
  }

  /** What is in the cursor stays at the front of the result. */
  lemma {:induction false} ScanExtends(dialect: Dialect, delim: char, c: Cursor, rest: string)
    ensures var r := Scan(dialect, delim, c, rest);
            |r| > |c.fields| && r[..|c.fields|] == c.fields && c.cur <= r[|c.fields|]
    decreases |rest|
  {
    if rest == "" {
    } else if c.inQuotes {
      if rest[0] != QUOTE {
        ScanExtends(dialect, delim, Push(c, rest[0]), rest[1..]);
      } else if |rest| > 1 && rest[1] == QUOTE {
        ScanExtends(dialect, delim, Push(c, QUOTE), rest[2..]);
      } else {
        ScanExtends(dialect, delim, c.(inQuotes := false), rest[1..]);
      }
    } else if rest[0] == QUOTE && Opens(dialect, c.cur) {
      ScanExtends(dialect, delim, c.(inQuotes := true), rest[1..]);
    } else if rest[0] == delim {
      var d := Cursor(c.fields + [c.cur], "", false);
      ScanExtends(dialect, delim, d, rest[1..]);
      assert Scan(dialect, delim, d, rest[1..])[..|d.fields|][|c.fields|] == c.cur;
    } else {
      ScanExtends(dialect, delim, Push(c, rest[0]), rest[1..]);
    }
  }

  function Quotes(n: nat): string {
    if n == 0 then "" else Quotes(n - 1) + [QUOTE]
  }

  lemma {:induction false} QuotesShift(n: nat)
    ensures Quotes(n + 1) == [QUOTE] + Quotes(n)
  {
    if n > 0 {
      QuotesShift(n - 1);
    }
  }

  /** A field under construction keeps what it has, so two that differ at one place stay
      different. */
  lemma StayDifferent(delim: char, a: Cursor, b: Cursor, restA: string, restB: string, i: nat)
    requires a.fields == b.fields && i < |a.cur| && i < |b.cur| && a.cur[i] != b.cur[i]
    ensures Scan(BuiltinCsv, delim, a, restA) != Scan(AibenchLlama, delim, b, restB)
  {
    ScanExtends(BuiltinCsv, delim, a, restA);
    ScanExtends(AibenchLlama, delim, b, restB);
  }

  lemma ClosedFieldStays(dialect: Dialect, delim: char, fields: seq<string>, cur: string, rest: string)
    ensures var r := Scan(dialect, delim, Cursor(fields + [cur], "", false), rest);
            |r| > |fields| && r[|fields|] == cur
  {
    var r := Scan(dialect, delim, Cursor(fields + [cur], "", false), rest);
    ScanExtends(dialect, delim, Cursor(fields + [cur], "", false), rest);
    assert r[|fields|] == r[..|fields + [cur]|][|fields|];
  }

  /** A delimiter behind the quotes ends the builtin field with all of them. */
  lemma DivergedAtDelim(delim: char, fields: seq<string>, p: string, m: nat, inQuotes: bool, rest: string)
    requires delim != QUOTE && m > 0 && rest != "" && rest[0] == delim
    ensures Scan(BuiltinCsv, delim, Cursor(fields, p + Quotes(m), false), rest)
         != Scan(AibenchLlama, delim, Cursor(fields, p, inQuotes), rest)
  {
    var a := Scan(BuiltinCsv, delim, Cursor(fields, p + Quotes(m), false), rest);
    var b := Scan(AibenchLlama, delim, Cursor(fields, p, inQuotes), rest);
    QuotesShift(m - 1);
    ClosedFieldStays(BuiltinCsv, delim, fields, p + Quotes(m), rest[1..]);
    assert a[|fields|][|p|] == QUOTE;
    if inQuotes {
      ScanExtends(AibenchLlama, delim, Cursor(fields, p + [delim], true), rest[1..]);
      assert b[|fields|][|p|] == delim;
    } else {
      ClosedFieldStays(AibenchLlama, delim, fields, p, rest[1..]);
    }
  }

  lemma MoreQuotes(p: string, m: nat)
    ensures p + Quotes(m) + [QUOTE] == p + Quotes(m + 1)
    ensures p + Quotes(m) + [QUOTE] + [QUOTE] == p + [QUOTE] + Quotes(m + 1)
  {
    QuotesShift(m);
    QuotesShift(m + 1);
  }

  /** Once the builtin field is ahead by some quotes, the two results never meet again. */
  lemma {:induction false} Diverged(delim: char, fields: seq<string>, p: string, m: nat, inQuotes: bool, rest: string)
    requires delim != QUOTE && m > 0
    ensures Scan(BuiltinCsv, delim, Cursor(fields, p + Quotes(m), false), rest)
         != Scan(AibenchLlama, delim, Cursor(fields, p, inQuotes), rest)
    decreases |rest|
  {
    var a, b := Cursor(fields, p + Quotes(m), false), Cursor(fields, p, inQuotes);
    QuotesShift(m - 1);
    if rest == "" {
      assert (fields + [a.cur])[|fields|] == a.cur && (fields + [b.cur])[|fields|] == b.cur;
    } else if rest[0] == QUOTE {
      MoreQuotes(p, m);
      if inQuotes && |rest| > 1 && rest[1] == QUOTE {
        assert rest[1..][1..] == rest[2..];
        Diverged(delim, fields, p + [QUOTE], m + 1, true, rest[2..]);
      } else {
        Diverged(delim, fields, p, m + 1, !inQuotes, rest[1..]);
      }
    } else if rest[0] == delim {
      DivergedAtDelim(delim, fields, p, m, inQuotes, rest);
    } else {
      assert (a.cur + [rest[0]])[|p|] == QUOTE && (p + [rest[0]])[|p|] == rest[0];
      StayDifferent(delim, Push(a, rest[0]), Push(b, rest[0]), rest[1..], rest[1..], |p|);
    }
  }

  lemma {:induction false} SameUnlessBareQuote(delim: char, c: Cursor, rest: string)
    requires delim != QUOTE
    ensures Scan(BuiltinCsv, delim, c, rest) == Scan(AibenchLlama, delim, c, rest) <==> !BareQuote(delim, c, rest)
    decreases |rest|
  {
    if rest == "" {
    } else if c.inQuotes {
      if rest[0] != QUOTE {
        SameUnlessBareQuote(delim, Push(c, rest[0]), rest[1..]);
      } else if |rest| > 1 && rest[1] == QUOTE {
        SameUnlessBareQuote(delim, Push(c, QUOTE), rest[2..]);
      } else {
        SameUnlessBareQuote(delim, c.(inQuotes := false), rest[1..]);
      }
    } else if rest[0] == QUOTE {
      if c.cur == "" {
        SameUnlessBareQuote(delim, c.(inQuotes := true), rest[1..]);
      } else {
        assert Quotes(1) == [QUOTE];
        Diverged(delim, c.fields, c.cur, 1, true, rest[1..]);
      }
    } else if rest[0] == delim {
      SameUnlessBareQuote(delim, Cursor(c.fields + [c.cur], "", false), rest[1..]);
    } else {
      SameUnlessBareQuote(delim, Push(c, rest[0]), rest[1..]);
    }
  }

  /** The two copies agree on a line exactly when no quote follows other text in a field that
      is not quoted. */
  lemma CopiesAgreeIff(delim: char, line: string)
    requires delim != QUOTE
    ensures Split(BuiltinCsv, delim, line) == Split(AibenchLlama, delim, line) <==> !BareQuote(delim, ORIGIN, line)
  {
    SameUnlessBareQuote(delim, ORIGIN, line);
  }

  /** They do differ, on the line a"b. */
  lemma CopiesDiffer()
    ensures Split(BuiltinCsv, ',', "a\"b") == ["a\"b"] && Split(AibenchLlama, ',', "a\"b") == ["ab"]
  {
    var a := Cursor([], "a", false);
    assert "a\"b"[1..] == "\"b" && "\"b"[1..] == "b" && "b"[1..] == "";
    assert Push(ORIGIN, 'a') == a;
    assert Scan(BuiltinCsv, ',', a, "\"b") == Scan(BuiltinCsv, ',', Push(a, QUOTE), "b");
    assert Scan(AibenchLlama, ',', a, "\"b") == Scan(AibenchLlama, ',', a.(inQuotes := true), "b");
    assert Push(Push(a, QUOTE), 'b').cur == "a\"b" && Push(a.(inQuotes := true), 'b').cur == "ab";
  }
}
