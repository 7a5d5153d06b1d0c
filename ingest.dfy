/**
 * The table-name and primary-key logic of ingest/database.py: the table name taken
 * from a data file's name, the index columns chosen for a table, and the scan of the
 * codebook's text lines that records each table's primary key columns.
 *
 * The module-level `suggested_keys` dict is the field of a `KeyRegistry` object; the
 * PDF is the sequence of its pages, each the sequence of its text lines.
 */
module Ingest {
  import opened Wrappers
  import opened PyStr

  // ----------------------------------------------------------------------------------
  // get_table_name and the table name of load_data_from_csv
  // ----------------------------------------------------------------------------------

  /** `os.path.basename` on a POSIX path: the text after the last `/`. */
  function Basename(path: string): (r: string)
    ensures '/' !in r && EndsWith(path, r)
    ensures |r| < |path| ==> path[|path| - |r| - 1] == '/'
  {
    if path == [] then []
    else if path[|path| - 1] == '/' then []
    else
      var r := Basename(path[..|path| - 1]) + [path[|path| - 1]];
      assert path[..|path| - 1][|path| - |r|..] + [path[|path| - 1]] == path[|path| - |r|..];
      r
  }

  /** Number of occurrences of `c` in `s`. */
  function Count(s: string, c: char): nat {
    if s == [] then 0 else Count(s[..|s| - 1], c) + (if s[|s| - 1] == c then 1 else 0)
  }

  /** `s.split(c)` has one piece more than there are separators. */
  lemma {:induction false} SplitOnCount(s: string, c: char)
    ensures |SplitOn(s, c)| == Count(s, c) + 1
    decreases |s|
  {
    if s != [] {
      SplitOnCount(s[..|s| - 1], c);
    }
  }

  /** The first piece of `s.split(c)` is the text before the first `c`. */
  lemma {:induction false} SplitOnFirst(s: string, c: char)
    ensures SplitOn(s, c)[0] == Before(s, c)
    decreases |s|
  {
    if s != [] {
      var init := s[..|s| - 1];
      var x := s[|s| - 1];
      assert s == init + [x];
      SplitOnFirst(init, c);
      BeforeOfPrefix(init, x, c);
      if c in init {
        SplitOnCount(init, c);
        CountPresent(init, c);
      } else {
        SplitOnAbsent(init, c);
      }
    }
  }

  lemma {:induction false} CountPresent(s: string, c: char)
    requires c in s
    ensures Count(s, c) >= 1
    decreases |s|
  {
    if s[|s| - 1] != c {
      assert c in s[..|s| - 1] by {
        var k :| 0 <= k < |s| && s[k] == c;
        assert s[..|s| - 1][k] == c;
      }
      CountPresent(s[..|s| - 1], c);
    }
  }

  lemma {:induction false} BeforeOfPrefix(init: string, x: char, c: char)
    ensures Before(init + [x], c) == (if c in init then Before(init, c) else if x == c then init else init + [x])
    decreases |init|
  {
    if init != [] {
      assert (init + [x])[1..] == init[1..] + [x];
      BeforeOfPrefix(init[1..], x, c);
    }
  }

  /**
   * `get_table_name`: with exactly one `.` in the file name, the part before it;
   * otherwise unpacking the split raises (None).
   */
  function GetTableName(path: string): (r: Option<string>)
    ensures r.Some? <==> Count(Basename(path), '.') == 1
    ensures r.Some? ==> r.value == Before(Basename(path), '.')
    ensures r.Some? ==> '.' !in r.value && '/' !in r.value
  {
    var parts := SplitOn(Basename(path), '.');
    var b := Before(Basename(path), '.');
    assert forall k :: 0 <= k < |b| ==> b[k] == Basename(path)[k];
    SplitOnCount(Basename(path), '.');
    SplitOnFirst(Basename(path), '.');
    if |parts| == 2 then Some(parts[0]) else None
  }

  /**
   * The table name `load_data_from_csv` writes to: `''` unless the path ends in `.txt`.
   * A name it gives never holds a dot or a slash.
   */
  function LoadTableName(path: string): (r: Option<string>)
    ensures !EndsWith(path, ".txt") ==> r == Some("")
    ensures EndsWith(path, ".txt") ==> r == GetTableName(path)
    ensures r.Some? ==> '.' !in r.value && '/' !in r.value
  {
    if EndsWith(path, ".txt") then GetTableName(path) else Some("")
  }

  /** A `.txt` data file whose stem has no dot is loaded into the table named by its stem. */
  lemma {:induction false} TxtFileTable(dir: string, stem: string)
    requires '.' !in stem && '/' !in stem
    ensures LoadTableName(dir + "/" + stem + ".txt") == Some(stem)
  {
    var path := dir + "/" + stem + ".txt";
    var name := stem + ".txt";
    assert path == dir + "/" + name;
    BasenameOfJoin(dir, name);
    assert stem + "." + "txt" == name;
    CountSuffix(stem, "txt");
    BeforeOfSuffix(stem, ".txt");
    assert EndsWith(path, ".txt") by {
      assert path[|path| - 4..] == ".txt";
    }
    assert GetTableName(path) == Some(stem);
  }

  lemma {:induction false} BasenameOfJoin(dir: string, name: string)
    requires '/' !in name
    ensures Basename(dir + "/" + name) == name
    decreases |name|
  {
    if name == [] {
      assert (dir + "/" + name)[|dir + "/" + name| - 1] == '/';
    } else {
      var path := dir + "/" + name;
      var init := name[..|name| - 1];
      assert path[..|path| - 1] == dir + "/" + init;
      BasenameOfJoin(dir, init);
      assert init + [name[|name| - 1]] == name;
    }
  }

  lemma {:induction false} CountSuffix(stem: string, ext: string)
    requires '.' !in stem && '.' !in ext
    ensures Count(stem + "." + ext, '.') == 1
    decreases |ext|
  {
    if ext == [] {
      CountAbsent(stem, '.');
      assert stem + "." + ext == stem + ".";
      assert (stem + ".")[..|stem|] == stem;
    } else {
      var init := ext[..|ext| - 1];
      assert (stem + "." + ext)[..|stem + "." + ext| - 1] == stem + "." + init;
      CountSuffix(stem, init);
    }
  }

  lemma {:induction false} CountAbsent(s: string, c: char)
    requires c !in s
    ensures Count(s, c) == 0
    decreases |s|
  {
    if s != [] {
      CountAbsent(s[..|s| - 1], c);
    }
  }

  lemma {:induction false} BeforeOfSuffix(stem: string, tail: string)
    requires '.' !in stem && tail != [] && tail[0] == '.'
    ensures Before(stem + tail, '.') == stem
    decreases |stem|
  {
    if stem != [] {
      assert (stem + tail)[1..] == stem[1..] + tail;
      BeforeOfSuffix(stem[1..], tail);
    }
  }

  // ----------------------------------------------------------------------------------
  // suggested_keys: prepare_dataframe_for_db and retieve_primary_keys
  // ----------------------------------------------------------------------------------

  const RecordsYear := "records_year"
  const DefaultKey := "acct"
  const TableLinePrefix := "Text file: "
  const KeyLinePrefix := "Primary Key: "

  /** `file_pattern.match(line)`: the prefix followed by at least one non-newline character. */
  predicate IsTableLine(line: string) {
    StartsWith(line, TableLinePrefix) && |line| > |TableLinePrefix| && line[|TableLinePrefix|] != '\n'
  }

  /** `primary_key_pattern.match(line)`. */
  predicate IsKeyLine(line: string) {
    StartsWith(line, KeyLinePrefix)
  }

  /** The key columns of a key line's text: split on `,` without spaces, or its first word. */
  function KeyColumns(keysText: string): (r: seq<string>)
    ensures |r| >= 1 && forall i :: 0 <= i < |r| ==> ' ' !in r[i] && ',' !in r[i]
  {
    var text := if ',' !in keysText then SplitOn(keysText, ' ')[0] else keysText;
    var r := SplitOn(RemoveChar(text, ' '), ',');
    assert forall i :: 0 <= i < |r| ==> ' ' !in r[i] by {
      RemoveCharSplit(text, ' ', ',');
    }
    r
  }

  lemma {:induction false} RemoveCharSplit(s: string, c: char, sep: char)
    ensures forall i :: 0 <= i < |SplitOn(RemoveChar(s, c), sep)| ==> c !in SplitOn(RemoveChar(s, c), sep)[i]
  {
    forall i | 0 <= i < |SplitOn(RemoveChar(s, c), sep)|
      ensures c !in SplitOn(RemoveChar(s, c), sep)[i]
    {
      SplitOnPieces(RemoveChar(s, c), sep, c);
    }
  }

  /** Every piece of a split is a part of the string, so a character absent from it is absent from them. */
  lemma {:induction false} SplitOnPieces(s: string, sep: char, c: char)
    requires c !in s
    ensures forall i :: 0 <= i < |SplitOn(s, sep)| ==> c !in SplitOn(s, sep)[i]
    decreases |s|
  {
    if s != [] {
      SplitOnPieces(s[..|s| - 1], sep, c);
    }
  }

  lemma {:induction false} RemoveCharAbsent(s: string, c: char)
    requires c !in s
    ensures RemoveChar(s, c) == s
    decreases |s|
  {
    if s != [] {
      RemoveCharAbsent(s[1..], c);
    }
  }

  /** Without a comma, only the text before the first space is kept. */
  lemma {:induction false} KeyColumnsNoComma(keysText: string)
    requires ',' !in keysText
    ensures KeyColumns(keysText) == [Before(keysText, ' ')]
  {
    var first := SplitOn(keysText, ' ')[0];
    SplitOnFirst(keysText, ' ');
    assert first == Before(keysText, ' ');
    RemoveCharAbsent(first, ' ');
    SplitOnAbsent(first, ',');
  }

  /** A comma-separated list: the pieces between commas, with every space removed. */
  lemma {:induction false} KeyColumnsList(keysText: string)
    requires ',' in keysText
    ensures KeyColumns(keysText) == SplitOn(RemoveChar(keysText, ' '), ',')
    ensures Join(KeyColumns(keysText), ",") == RemoveChar(keysText, ' ')
  {
    SplitOnJoin(RemoveChar(keysText, ' '), ',');
  }

  /** The scan's state: the current table name and the keys found so far. */
  datatype KeyState = KeyState(table: string, keys: map<string, seq<string>>)

  /**
   * One text line of the scan.  Only a table line moves the current table, only a key
   * line changes the keys, and then only those of the current table.
   */
  function Step(st: KeyState, line: string): (r: KeyState)
    ensures IsTableLine(line) ==> r == KeyState(RemoveAll(line, TableLinePrefix), st.keys)
    ensures !IsTableLine(line) && IsKeyLine(line)
            ==> r == KeyState(st.table, st.keys[st.table := KeyColumns(RemoveAll(line, KeyLinePrefix))])
    ensures !IsTableLine(line) && !IsKeyLine(line) ==> r == st
    ensures r.table != st.table ==> IsTableLine(line)
    ensures r.keys != st.keys ==> IsKeyLine(line)
    ensures r.keys.Keys <= st.keys.Keys + {st.table}
    ensures forall t :: t in st.keys && t != st.table ==> t in r.keys && r.keys[t] == st.keys[t]
  {
    if IsTableLine(line) then st.(table := RemoveAll(line, TableLinePrefix))
    else if IsKeyLine(line) then st.(keys := st.keys[st.table := KeyColumns(RemoveAll(line, KeyLinePrefix))])
    else st
  }

  /** The state after the given lines, in order. */
  function Scan(st: KeyState, lines: seq<string>): KeyState
    decreases |lines|
  {
    if lines == [] then st else Step(Scan(st, lines[..|lines| - 1]), lines[|lines| - 1])
  }

  lemma {:induction false} ScanAppend(st: KeyState, a: seq<string>, b: seq<string>)
    ensures Scan(st, a + b) == Scan(Scan(st, a), b)
    decreases |b|
  {
    if b == [] {
      assert a + b == a;
    } else {
      assert (a + b)[..|a + b| - 1] == a + b[..|b| - 1];
      ScanAppend(st, a, b[..|b| - 1]);
    }
  }

  /** The text lines of the pages, in order. */
  function Lines(pages: seq<seq<string>>): seq<string>
    decreases |pages|
  {
    if pages == [] then [] else Lines(pages[..|pages| - 1]) + pages[|pages| - 1]
  }

  /** `pdf.pages[2::1]`: every page from the third on. */
  function FromThirdPage(pages: seq<seq<string>>): (r: seq<seq<string>>)
    ensures |pages| <= 2 ==> r == []
    ensures |pages| > 2 ==> |r| == |pages| - 2 && forall i :: 0 <= i < |r| ==> r[i] == pages[i + 2]
  {
    if |pages| <= 2 then [] else pages[2..]
  }

  /** No line is both a table line and a key line, so the order of the two tests never matters. */
  lemma {:induction false} LineKindsDisjoint(line: string)
    ensures !(IsTableLine(line) && IsKeyLine(line))
  {
    if IsTableLine(line) && |KeyLinePrefix| <= |line| {
      assert line[..|KeyLinePrefix|][0] == TableLinePrefix[0] != KeyLinePrefix[0];
    }
  }

  /** When the name line holds the prefix once, the table is the text after it. */
  lemma {:induction false} TableNameAfterPrefix(name: string)
    requires name != [] && name[0] != '\n' && !Occurs(name, TableLinePrefix)
    ensures Step(KeyState("", map[]), TableLinePrefix + name).table == name
  {
    var line := TableLinePrefix + name;
    assert StartsWith(line, TableLinePrefix);
    assert line[|TableLinePrefix|..] == name;
    RemoveAllAbsent(name, TableLinePrefix);
  }

  /** Two lines are two steps. */
  lemma {:induction false} ScanTwo(st: KeyState, first: string, second: string)
    ensures Scan(st, [first, second]) == Step(Step(st, first), second)
  {
    assert [first][..0] == [];
    assert Scan(st, [first]) == Step(st, first);
    assert [first, second][..1] == [first];
  }

  /** A later key line for the same table replaces the earlier one. */
  lemma {:induction false} LaterKeyLineOverwrites(st: KeyState, first: string, second: string)
    requires IsKeyLine(first) && IsKeyLine(second) && !IsTableLine(first) && !IsTableLine(second)
    ensures Scan(st, [first, second]).keys == st.keys[st.table := KeyColumns(RemoveAll(second, KeyLinePrefix))]
  {
    ScanTwo(st, first, second);
    var k1 := KeyColumns(RemoveAll(first, KeyLinePrefix));
    var k2 := KeyColumns(RemoveAll(second, KeyLinePrefix));
    assert Step(st, first) == KeyState(st.table, st.keys[st.table := k1]);
    assert st.keys[st.table := k1][st.table := k2] == st.keys[st.table := k2];
  }

  /** Key lines seen before any table line belong to the table `''`. */
  lemma {:induction false} KeysBeforeAnyTable(lines: seq<string>)
    requires forall i :: 0 <= i < |lines| ==> !IsTableLine(lines[i])
    ensures Scan(KeyState("", map[]), lines).table == ""
    ensures Scan(KeyState("", map[]), lines).keys.Keys <= {""}
    decreases |lines|
  {
    if lines != [] {
      KeysBeforeAnyTable(lines[..|lines| - 1]);
    }
  }

  /** Lines that are neither table nor key lines leave the state as it was. */
  lemma {:induction false} OtherLinesIgnored(st: KeyState, lines: seq<string>)
    requires forall i :: 0 <= i < |lines| ==> !IsTableLine(lines[i]) && !IsKeyLine(lines[i])
    ensures Scan(st, lines) == st
    decreases |lines|
  {
    if lines != [] {
      OtherLinesIgnored(st, lines[..|lines| - 1]);
    }
  }

  /** The module-level `suggested_keys` dict. */
  class KeyRegistry {
    var suggested: map<string, seq<string>>

    constructor()
      ensures suggested == map[]
    {
      suggested := map[];
    }

    /**
     * The index columns `prepare_dataframe_for_db` sets: a copy of the suggested keys
     * with `records_year` added, or `acct, records_year` for an unknown table.  The
     * registry is not changed.
     */
    method IndexFor(table: string) returns (index: seq<string>)
      ensures table in suggested ==> index == suggested[table] + [RecordsYear]
      ensures table !in suggested ==> index == [DefaultKey, RecordsYear]
      ensures |index| >= 2 || table in suggested
      ensures index[|index| - 1] == RecordsYear
    {
      if table in suggested {
        index := suggested[table];
        index := index + [RecordsYear];
      } else {
        index := [DefaultKey, RecordsYear];
      }
    }

    /** The inner loop of `retieve_primary_keys`: the lines of one page. */
    method ScanPage(tableName: string, page: seq<string>) returns (newTable: string)
      modifies this
      ensures KeyState(newTable, suggested) == Scan(KeyState(tableName, old(suggested)), page)
    {
      newTable := tableName;
      var j := 0;
      while j < |page|
        invariant 0 <= j <= |page|
        invariant KeyState(newTable, suggested) == Scan(KeyState(tableName, old(suggested)), page[..j])
      {
        var line := page[j];
        assert page[..j + 1][..j] == page[..j];
        if IsTableLine(line) {
          newTable := RemoveAll(line, TableLinePrefix);
        } else if IsKeyLine(line) {
          var keysText := RemoveAll(line, KeyLinePrefix);
          suggested := suggested[newTable := KeyColumns(keysText)];
        }
        j := j + 1;
      }
      assert page[..|page|] == page;
    }

    /** `retieve_primary_keys` over the text lines of the codebook's pages. */
    method RetrievePrimaryKeys(pages: seq<seq<string>>)
      modifies this
      ensures suggested == Scan(KeyState("", old(suggested)), Lines(FromThirdPage(pages))).keys
    {
      var tableName := "";
      var rest := if |pages| <= 2 then [] else pages[2..];
      assert rest == FromThirdPage(pages);
      var p := 0;
      assert rest[..0] == [];
      while p < |rest|
        invariant 0 <= p <= |rest|
        invariant KeyState(tableName, suggested) == Scan(KeyState("", old(suggested)), Lines(rest[..p]))
      {
        tableName := ScanPage(tableName, rest[p]);
        ScanAppend(KeyState("", old(suggested)), Lines(rest[..p]), rest[p]);
        assert rest[..p + 1][..p] == rest[..p];
        p := p + 1;
      }
      assert rest[..|rest|] == rest;
    }
  }
}
