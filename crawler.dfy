/**
 * The crawl store and round scheduler (fmcrawler_sql.py). The three SQLite
 * tables are keyed maps held by a `Store`:
 *   - FighterURLs: url -> (fighter_id, processed), url unique;
 *   - Fighters:    row id -> row, name and url unique, written with INSERT OR REPLACE;
 *   - Fights:      bout id -> row, written with INSERT OR IGNORE.
 * Each table operation is a function on a `Db` value; the store's methods are
 * proved to change their fields exactly as those functions say.
 */
module CrawlStore {
  import opened Text
  import opened Records
  import opened Fightmetric

  // ===========================================================================
  // strip_key (fmcrawler_sql.py:320-324)
  // ===========================================================================

  /** `str.lower` on one character (ASCII letters only). */
  function Lower(c: char): char
  {
    if 'A' <= c <= 'Z' then (c as int + 32) as char else c
  }

  function LowerAll(s: string): (r: string)
    ensures |r| == |s|
    ensures forall i :: 0 <= i < |s| ==> r[i] == Lower(s[i])
  {
    if s == [] then [] else [Lower(s[0])] + LowerAll(s[1..])
  }

  /** A Fighters column name from a stats key: '.' and ' ' deleted, then lower-cased. */
  function StripKey(k: string): string
  {
    LowerAll(Replace(Replace(k, ".", ""), " ", ""))
  }

  /** `s` without any `c`. */
  function Without(s: string, c: char): string
  {
    if s == [] then [] else (if s[0] == c then [] else [s[0]]) + Without(s[1..], c)
  }

  lemma {:induction false} DeleteIsWithout(s: string, c: char)
    ensures Replace(s, [c], "") == Without(s, c)
  {
    if s != [] {
      assert s[..1] == [s[0]];
      DeleteIsWithout(s[1..], c);
    }
  }

  /** A column name has no '.', no space and no capital letter. */
  lemma {:induction false} StripKeyClean(k: string)
    ensures '.' !in StripKey(k) && ' ' !in StripKey(k)
    ensures forall i :: 0 <= i < |StripKey(k)| ==> !('A' <= StripKey(k)[i] <= 'Z')
  {
    var a := Replace(k, ".", "");
    var b := Replace(a, " ", "");
    DeleteChar(k, '.');
    DeleteChar(a, ' ');
    forall i | 0 <= i < |b| ensures b[i] != '.' && b[i] != ' ' {
      assert b[i] in b;
    }
  }

  /** Stripping a column name again changes nothing. */
  lemma {:induction false} StripKeyIdempotent(k: string)
    ensures StripKey(StripKey(k)) == StripKey(k)
  {
    var s := StripKey(k);
    StripKeyClean(k);
    NoCharNoOccurrence(s, '.');
    ReplaceAbsent(s, ".", "");
    NoCharNoOccurrence(s, ' ');
    ReplaceAbsent(s, " ", "");
    assert LowerAll(s) == s;
  }

  lemma {:induction false} NoCharNoOccurrence(s: string, c: char)
    requires c !in s
    ensures forall i: nat :: !OccursAt(s, [c], i)
  {
    forall i: nat ensures !OccursAt(s, [c], i) {
      if i + 1 <= |s| {
        assert s[i..i + 1] == [s[i]];
        assert s[i] in s;
      }
    }
  }

  /** 'Str. Acc.' is stored in the column 'stracc'. */
  lemma {:induction false} StripKeyExample()
    ensures StripKey("Str. Acc.") == "stracc"
  {
    DropDotsExample();
    DropSpacesExample();
    LowerExample();
  }

  lemma {:induction false} DropDotsExample()
    ensures Replace("Str. Acc.", ".", "") == "Str Acc"
  {
    DeleteIsWithout("Str. Acc.", '.');
  }

  lemma {:induction false} DropSpacesExample()
    ensures Replace("Str Acc", " ", "") == "StrAcc"
  {
    DeleteIsWithout("Str Acc", ' ');
  }

  lemma {:induction false} LowerExample()
    ensures LowerAll("StrAcc") == "stracc"
  {
  }

  // ===========================================================================
  // The INSERT statement of write_fighter_to_database (fmcrawler_sql.py:250-268)
  // ===========================================================================

  /** The separator after the `i`-th of `n` columns. */
  function Delim(i: nat, n: nat): string
  {
    if i == n - 1 then "" else ", "
  }

  /** The column part of the statement after the first `i` keys. */
  function ColumnText(keys: seq<string>, i: nat): string
    requires i <= |keys|
  {
    if i == 0 then "" else ColumnText(keys, i - 1) + StripKey(keys[i - 1]) + Delim(i - 1, |keys|)
  }

  /** `s * n` for a string. */
  function Repeat(s: string, n: nat): string
  {
    if n == 0 then "" else s + Repeat(s, n - 1)
  }

  const InsertHead: string := "INSERT OR REPLACE INTO Fighters ( "
  const ValuesHead: string := ") VALUES ( "

  /** The placeholder part: `'?, '*(n-1) + '? )'`, where a negative repeat count gives ''. */
  function Placeholders(n: nat): string
  {
    Repeat("?, ", if n == 0 then 0 else n - 1) + "? )"
  }

  function InsertText(keys: seq<string>): string
  {
    InsertHead + ColumnText(keys, |keys|) + ValuesHead + Placeholders(|keys|)
  }

  /** Builds the statement as the source does, one column at a time. */
  method InsertStatement(keys: seq<string>) returns (sql: string)
    ensures sql == InsertText(keys)
  {
    var columns := AppendColumns(keys);
    sql := InsertHead + columns + ValuesHead + Placeholders(|keys|);
  }

  /** The loop over the keys, appending each column and its separator. */
  method AppendColumns(keys: seq<string>) returns (columns: string)
    ensures columns == ColumnText(keys, |keys|)
  {
    columns := "";
    var i := 0;
    while i < |keys|
      invariant 0 <= i <= |keys|
      invariant columns == ColumnText(keys, i)
    {
      var delim := if i == |keys| - 1 then "" else ", ";
      columns := columns + StripKey(keys[i]) + delim;
      i := i + 1;
    }
  }

  /** How often `c` occurs in `s`. */
  function Count(s: string, c: char): nat
  {
    if s == [] then 0 else (if s[0] == c then 1 else 0) + Count(s[1..], c)
  }

  lemma {:induction false} CountConcat(a: string, b: string, c: char)
    ensures Count(a + b, c) == Count(a, c) + Count(b, c)
  {
    if a != [] {
      assert (a + b)[1..] == a[1..] + b;
      CountConcat(a[1..], b, c);
    } else {
      assert a + b == b;
    }
  }

  lemma {:induction false} CountAbsent(s: string, c: char)
    requires c !in s
    ensures Count(s, c) == 0
  {
    if s != [] {
      CountAbsent(s[1..], c);
    }
  }

  lemma {:induction false} CountRepeat(n: nat)
    ensures Count(Repeat("?, ", n), '?') == n
  {
    if n > 0 {
      CountRepeat(n - 1);
      CountConcat("?, ", Repeat("?, ", n - 1), '?');
    }
  }

  /** A column name has a '?' only if its key has one. */
  lemma {:induction false} StripKeyNoMark(k: string)
    requires '?' !in k
    ensures '?' !in StripKey(k)
  {
    var a := Replace(k, ".", "");
    var b := Replace(a, " ", "");
    DeleteChar(k, '.');
    DeleteChar(a, ' ');
    forall i | 0 <= i < |b| ensures StripKey(k)[i] != '?' {
      assert b[i] in b;
    }
  }

  lemma {:induction false} ColumnTextNoMark(keys: seq<string>, i: nat)
    requires i <= |keys|
    requires forall k :: k in keys ==> '?' !in k
    ensures Count(ColumnText(keys, i), '?') == 0
  {
    if i > 0 {
      ColumnTextNoMark(keys, i - 1);
      StripKeyNoMark(keys[i - 1]);
      CountAbsent(StripKey(keys[i - 1]), '?');
      CountAbsent(Delim(i - 1, |keys|), '?');
      CountConcat(ColumnText(keys, i - 1), StripKey(keys[i - 1]), '?');
      CountConcat(ColumnText(keys, i - 1) + StripKey(keys[i - 1]), Delim(i - 1, |keys|), '?');
    }
  }

  lemma {:induction false} PlaceholdersCount(n: nat)
    requires n > 0
    ensures Count(Placeholders(n), '?') == n
  {
    CountRepeat(n - 1);
    CountConcat(Repeat("?, ", n - 1), "? )", '?');
    assert Count("? )", '?') == 1;
  }

  /** One `?` per key: the placeholder list has exactly as many marks as the value
      tuple, built from the same key order, has entries, and the column list adds none. */
  lemma {:induction false} OnePlaceholderPerKey(keys: seq<string>)
    requires |keys| > 0
    requires forall k :: k in keys ==> '?' !in k
    ensures Count(ColumnText(keys, |keys|) + Placeholders(|keys|), '?') == |keys|
  {
    ColumnTextNoMark(keys, |keys|);
    PlaceholdersCount(|keys|);
    CountConcat(ColumnText(keys, |keys|), Placeholders(|keys|), '?');
  }

  // ===========================================================================
  // FighterURLs (fmcrawler_sql.py:51-56, 149-204)
  // ===========================================================================

  /** A FighterURLs row: the fighter's row id and the processed flag, each possibly NULL. */
  datatype UrlRow = UrlRow(fighterId: Option<nat>, processed: Option<nat>)

  type UrlTable = map<string, UrlRow>

  /** The rows `get_url_list` selects: processed = 0 (a NULL flag does not compare equal to 0). */
  function Queued(t: UrlTable): set<string>
  {
    set u | u in t && t[u].processed == Some(0)
  }

  /** `add_to_url_list`: one write per URL; with a non-zero flag INSERT OR REPLACE (the
      unique url's old row is deleted, so its fighter_id becomes NULL), with 0 INSERT OR IGNORE. */
  function AddUrls(t: UrlTable, us: set<string>, processed: nat): (r: UrlTable)
    ensures r.Keys == t.Keys + us
    ensures forall u :: u in t && u !in us ==> r[u] == t[u]
    ensures processed != 0 ==> forall u :: u in us ==> r[u] == UrlRow(None, Some(processed))
    ensures processed == 0 ==> forall u :: u in t ==> r[u] == t[u]
    ensures processed == 0 ==> forall u :: u in us && u !in t ==> r[u] == UrlRow(None, Some(0))
  {
    map u | u in t.Keys + us :: if u in us && (processed != 0 || u !in t) then UrlRow(None, Some(processed)) else t[u]
  }

  /** The argument of `add_to_url_list`: a bare string stands for a one-element set. */
  datatype UrlArg = Bare(url: string) | Urls(items: seq<string>)

  function Members(arg: UrlArg): set<string>
  {
    match arg
    case Bare(u) => {u}
    case Urls(items) => set u | u in items
  }

  /** Queueing with flag 0 adds exactly the URLs not yet known; a known URL keeps its row,
      even a processed one. */
  lemma {:induction false} QueueIgnoresKnown(t: UrlTable, us: set<string>)
    ensures Queued(AddUrls(t, us, 0)) == Queued(t) + (us - t.Keys)
  {
    var r := AddUrls(t, us, 0);
    assert forall u :: u in Queued(r) <==> u in Queued(t) + (us - t.Keys);
  }

  /** Marking with flag 1 takes the URLs off the queue and keeps every other row. */
  lemma {:induction false} MarkDequeues(t: UrlTable, us: set<string>)
    ensures Queued(AddUrls(t, us, 1)) == Queued(t) - us
    ensures forall u :: u in us ==> AddUrls(t, us, 1)[u].processed == Some(1)
  {
    var r := AddUrls(t, us, 1);
    assert forall u :: u in Queued(r) <==> u in Queued(t) - us;
  }

  /** The FighterURLs write at fmcrawler_sql.py:274: INSERT OR IGNORE of (url, fighter_id), a
      no-op when the url or the fighter id is already taken. */
  function LinkFighter(t: UrlTable, url: string, id: nat): (r: UrlTable)
    ensures t.Keys <= r.Keys <= t.Keys + {url}
    ensures forall u :: u in t ==> r[u] == t[u]
    ensures Queued(r) == Queued(t)
  {
    if url in t || exists u :: u in t && t[u].fighterId == Some(id) then t
    else t[url := UrlRow(Some(id), None)]
  }

  // ===========================================================================
  // Fighters (fmcrawler_sql.py:29-49, 249-272)
  // ===========================================================================

  type Row = map<string, Value>

  /** The columns of the Fighters table other than its id. */
  const FighterColumns: set<string> := {"name", "url", "weight", "height", "slpm", "stance", "sapm",
    "dob", "subavg", "reach", "tdacc", "tddef", "tdavg", "stracc", "strdef", "wins", "losses", "cumtime"}

  /** Every key names a column, and no two keys name the same one; otherwise SQLite
      rejects the statement. */
  predicate ColumnsOk(stats: map<string, Value>)
  {
    && (forall k :: k in stats ==> StripKey(k) in FighterColumns)
    && (forall k, k' :: k in stats && k' in stats && StripKey(k) == StripKey(k') ==> k == k')
  }

  /** The inserted row: each key's value under its stripped column name. */
  function RowOf(stats: map<string, Value>): (r: Row)
    requires ColumnsOk(stats)
    ensures r.Keys == set k | k in stats :: StripKey(k)
    ensures forall k :: k in stats ==> r[StripKey(k)] == stats[k]
  {
    map k | k in stats :: StripKey(k) := stats[k]
  }

  /** Two rows collide on a UNIQUE column when both hold the same non-NULL value there. */
  predicate Collide(a: Row, b: Row, column: string)
  {
    column in a && column in b && a[column] != Null && a[column] == b[column]
  }

  predicate Clash(a: Row, b: Row)
  {
    Collide(a, b, "name") || Collide(a, b, "url")
  }

  /** INSERT OR REPLACE into Fighters under the fresh id: every row that collides on name
      or url is deleted first. */
  function ReplaceFighter(fs: map<nat, Row>, id: nat, row: Row): map<nat, Row>
  {
    (map i | i in fs && !Clash(fs[i], row) :: fs[i])[id := row]
  }

  /** No two rows share a non-NULL name or url. */
  predicate UniqueFighters(fs: map<nat, Row>)
  {
    forall i, j :: i in fs && j in fs && i != j ==> !Clash(fs[i], fs[j])
  }

  /** The replace keeps the table's uniqueness, stores the row under its id, and keeps
      exactly the old rows that do not collide with it. */
  lemma {:induction false} ReplaceFighterUnique(fs: map<nat, Row>, id: nat, row: Row)
    requires UniqueFighters(fs) && id !in fs
    ensures UniqueFighters(ReplaceFighter(fs, id, row))
    ensures ReplaceFighter(fs, id, row)[id] == row
    ensures forall i :: i in fs ==> (i in ReplaceFighter(fs, id, row) <==> !Clash(fs[i], row))
  {
    forall i | i in fs
      ensures Clash(fs[i], row) <==> Clash(row, fs[i])
    {
      ClashSymmetric(fs[i], row);
    }
  }

  /** Collision is symmetric. */
  lemma {:induction false} ClashSymmetric(a: Row, b: Row)
    ensures Clash(a, b) <==> Clash(b, a)
  {
  }

  // ===========================================================================
  // Fights (fmcrawler_sql.py:58-75, 210-246)
  // ===========================================================================

  /** `fight['Event'][0]`. */
  function EventName(f: Fight): Result<string>
  {
    if "Event" !in f then Err(KeyError("Event"))
    else match f["Event"]
      case Pair(Str(e), _) => Ok(e)
      case _ => Err(TypeError)
  }

  /** The bout key: the hash of the sorted names and the event, joined without a separator. */
  function BoutId(a: string, b: string, event: string, hash: string -> int): int
  {
    var sorted := SortPair(a, b);
    hash(sorted.0 + sorted.1 + event)
  }

  /** A bout gets the same key from either fighter's page. */
  lemma {:induction false} BoutIdSymmetric(a: string, b: string, event: string, hash: string -> int)
    ensures BoutId(a, b, event, hash) == BoutId(b, a, event, hash)
  {
    SortPairSymmetric(a, b);
  }

  /** A single-valued field of the bout. */
  function ScalarField(f: Fight, key: string): Result<Value>
  {
    if key !in f then Err(KeyError(key))
    else match f[key]
      case Scalar(v) => Ok(v)
      case Pair(_, _) => Err(TypeError)
  }

  /** A two-valued field of the bout. */
  function PairField(f: Fight, key: string): Result<(Value, Value)>
  {
    if key !in f then Err(KeyError(key))
    else match f[key]
      case Pair(x, y) => Ok((x, y))
      case Scalar(_) => Err(TypeError)
  }

  /** The value tuple of the INSERT, read in the source's order. */
  function BoutRow(f: Fight, a: string, b: string, event: string, winner: string): Result<Row>
  {
    match ScalarField(f, "Method")
    case Err(e) => Err(e)
    case Ok(how) =>
    match PairField(f, "Pass")
    case Err(e) => Err(e)
    case Ok(pass) =>
    match ScalarField(f, "Round")
    case Err(e) => Err(e)
    case Ok(round) =>
    match PairField(f, "Str")
    case Err(e) => Err(e)
    case Ok(str) =>
    match PairField(f, "Sub")
    case Err(e) => Err(e)
    case Ok(sub) =>
    match PairField(f, "Td")
    case Err(e) => Err(e)
    case Ok(td) =>
    match ScalarField(f, "Time")
    case Err(e) => Err(e)
    case Ok(time) =>
    Ok(map["fighter1" := Str(a), "fighter2" := Str(b), "event" := Str(event), "method" := how,
      "pass1" := pass.0, "pass2" := pass.1, "round" := round, "str1" := str.0, "str2" := str.1,
      "sub1" := sub.0, "sub2" := sub.1, "td1" := td.0, "td2" := td.1, "time" := time,
      "winner" := Str(winner)])
  }

  /** A stored row holds the given two fighters, in either order. */
  predicate SamePair(row: Row, a: string, b: string)
  {
    "fighter1" in row && "fighter2" in row
    && multiset{row["fighter1"], row["fighter2"]} == multiset{Str(a), Str(b)}
  }

  /** One iteration of `write_fights_to_database`: the key, the winner, the collision check
      against the row already under that key, then INSERT OR IGNORE. */
  function StoreBout(bouts: map<int, Row>, f: Fight, hash: string -> int): Result<map<int, Row>>
  {
    match FighterNames(f)
    case Err(e) => Err(e)
    case Ok(names) =>
    match EventName(f)
    case Err(e) => Err(e)
    case Ok(event) =>
    var id := BoutId(names.0, names.1, event, hash);
    match Winner(f, names.0, names.1)
    case Err(e) => Err(e)
    case Ok(winner) =>
    if id in bouts && !SamePair(bouts[id], names.0, names.1) then Err(AssertionError)
    else
      match BoutRow(f, names.0, names.1, event, winner)
      case Err(e) => Err(e)
      case Ok(row) => Ok(if id in bouts then bouts else bouts[id := row])
  }

  /** The bouts of one page, written in order; the first failure aborts. */
  function StoreBouts(bouts: map<int, Row>, fights: seq<Fight>, hash: string -> int): Result<map<int, Row>>
  {
    if fights == [] then Ok(bouts)
    else
      match StoreBouts(bouts, fights[..|fights| - 1], hash)
      case Err(e) => Err(e)
      case Ok(b) => StoreBout(b, fights[|fights| - 1], hash)
  }

  /** The key a bout is stored under. */
  function KeyOf(f: Fight, hash: string -> int): int
    requires FighterNames(f).Ok? && EventName(f).Ok?
  {
    BoutId(FighterNames(f).value.0, FighterNames(f).value.1, EventName(f).value, hash)
  }

  /** A stored bout is never overwritten; the only new key is the bout's own, and the row under
      it holds the bout's two fighters. */
  lemma {:induction false} StoreBoutKeeps(bouts: map<int, Row>, f: Fight, hash: string -> int)
    requires StoreBout(bouts, f, hash).Ok?
    ensures FighterNames(f).Ok? && EventName(f).Ok?
    ensures StoreBout(bouts, f, hash).value.Keys == bouts.Keys + {KeyOf(f, hash)}
    ensures forall id :: id in bouts ==> StoreBout(bouts, f, hash).value[id] == bouts[id]
    ensures SamePair(StoreBout(bouts, f, hash).value[KeyOf(f, hash)], FighterNames(f).value.0, FighterNames(f).value.1)
  {
    var (a, b) := FighterNames(f).value;
    var event := EventName(f).value;
    var winner := Winner(f, a, b).value;
    if BoutId(a, b, event, hash) !in bouts {
      BoutRowPair(f, a, b, event, winner);
    }
  }

  lemma {:induction false} BoutRowPair(f: Fight, a: string, b: string, event: string, winner: string)
    requires BoutRow(f, a, b, event, winner).Ok?
    ensures SamePair(BoutRow(f, a, b, event, winner).value, a, b)
  {
  }

  /** The same bout seen from the opponent's page (names swapped, same event) is accepted
      by the collision check and leaves the table as it is. */
  lemma {:induction false} MirroredBoutIgnored(bouts: map<int, Row>, f: Fight, g: Fight, hash: string -> int)
    requires StoreBout(bouts, f, hash).Ok?
    requires FighterNames(f).Ok? && FighterNames(g).Ok?
    requires FighterNames(g).value == (FighterNames(f).value.1, FighterNames(f).value.0)
    requires EventName(g) == EventName(f)
    requires "outcome" in g
    requires BoutRow(g, FighterNames(g).value.0, FighterNames(g).value.1, EventName(g).value,
      Winner(g, FighterNames(g).value.0, FighterNames(g).value.1).value).Ok?
    ensures StoreBout(StoreBout(bouts, f, hash).value, g, hash) == StoreBout(bouts, f, hash)
  {
    var (a, b) := FighterNames(f).value;
    BoutIdSymmetric(a, b, EventName(f).value, hash);
    StoreBoutKeeps(bouts, f, hash);
    assert multiset{Str(a), Str(b)} == multiset{Str(b), Str(a)};
  }

  /** Over a page's bouts: rows already stored are never overwritten, and every bout of the
      page has a row under its key holding its two fighters. */
  lemma {:induction false} StoreBoutsKeeps(bouts: map<int, Row>, fights: seq<Fight>, hash: string -> int)
    requires StoreBouts(bouts, fights, hash).Ok?
    ensures forall id :: id in bouts ==> (id in StoreBouts(bouts, fights, hash).value
      && StoreBouts(bouts, fights, hash).value[id] == bouts[id])
    ensures forall f :: f in fights ==> (FighterNames(f).Ok? && EventName(f).Ok?
      && KeyOf(f, hash) in StoreBouts(bouts, fights, hash).value
      && SamePair(StoreBouts(bouts, fights, hash).value[KeyOf(f, hash)], FighterNames(f).value.0, FighterNames(f).value.1))
  {
    if fights != [] {
      var front := fights[..|fights| - 1];
      var last := fights[|fights| - 1];
      StoreBoutsKeeps(bouts, front, hash);
      var b := StoreBouts(bouts, front, hash).value;
      StoreBoutKeeps(b, last, hash);
      assert fights == front + [last];
      forall f | f in fights
        ensures FighterNames(f).Ok? && EventName(f).Ok?
        ensures KeyOf(f, hash) in StoreBouts(bouts, fights, hash).value
        ensures SamePair(StoreBouts(bouts, fights, hash).value[KeyOf(f, hash)], FighterNames(f).value.0, FighterNames(f).value.1)
      {
        if f != last {
          assert f in front;
        }
      }
    }
  }

  // ===========================================================================
  // One page into the three tables (fmcrawler_sql.py:249-316)
  // ===========================================================================

  /** The three tables, and the next AUTOINCREMENT id of Fighters. */
  datatype Db = Db(urls: UrlTable, fighters: map<nat, Row>, nextId: nat, bouts: map<int, Row>)

  /** `write_fighter_to_database`: the url key, the INSERT OR REPLACE of the row, the lookup
      of the new id by name (a NULL name finds no row), the link, the discovered URLs queued,
      and the page's own URL marked processed last. */
  function FighterWrite(db: Db, stats: map<string, Value>, links: set<string>): Result<Db>
  {
    if "url" !in stats then Err(KeyError("url"))
    else if !ColumnsOk(stats) then Err(OperationalError("INSERT INTO Fighters"))
    else if "Name" !in stats then Err(KeyError("Name"))
    else if stats["Name"] == Null || !stats["url"].Str? then Err(TypeError)
    else Ok(Written(db, stats, stats["url"].s, links))
  }

  /** The tables after a successful fighter write under the next id. */
  function Written(db: Db, stats: map<string, Value>, url: string, links: set<string>): Db
    requires ColumnsOk(stats)
  {
    var id := db.nextId;
    db.(fighters := ReplaceFighter(db.fighters, id, RowOf(stats)), nextId := id + 1,
      urls := AddUrls(AddUrls(LinkFighter(db.urls, url, id), links, 0), {url}, 1))
  }

  /** The page's own URL ends processed with a NULL fighter_id (the final REPLACE drops the
      link), every discovered URL is known, and the queue gains exactly the discovered URLs
      that were new, minus the page's own. */
  lemma {:induction false} FighterWriteMarksOwnUrl(db: Db, stats: map<string, Value>, links: set<string>)
    requires FighterWrite(db, stats, links).Ok?
    ensures "url" in stats && stats["url"].Str?
    ensures FighterWrite(db, stats, links).value.urls[stats["url"].s] == UrlRow(None, Some(1))
    ensures links <= FighterWrite(db, stats, links).value.urls.Keys
    ensures Queued(FighterWrite(db, stats, links).value.urls)
      == (Queued(db.urls) + (links - db.urls.Keys)) - {stats["url"].s}
    ensures FighterWrite(db, stats, links).value.bouts == db.bouts
  {
    var url := stats["url"].s;
    var linked := LinkFighter(db.urls, url, db.nextId);
    QueueIgnoresKnown(linked, links);
    MarkDequeues(AddUrls(linked, links, 0), {url});
  }

  /** The stats written for a page: the parsed attributes plus Name, url, wins, losses and
      the summed fight time. */
  function PageStats(p: Profile, url: string): Result<map<string, Value>>
  {
    match CountOutcome(p.fights, "win")
    case Err(e) => Err(e)
    case Ok(wins) =>
    match CountOutcome(p.fights, "loss")
    case Err(e) => Err(e)
    case Ok(losses) =>
    match CumTime(p.fights)
    case Err(e) => Err(e)
    case Ok(time) =>
    Ok(p.stats["Name" := Str(p.name)]["url" := Str(url)]["wins" := Num(wins as real)]
      ["losses" := Num(losses as real)]["cumtime" := Num(time)])
  }

  /** `write_page_to_database` on the fetched page: nothing for the empty-page sentinel,
      otherwise the fighter row and links, then the bouts. */
  function PageWrite(db: Db, url: string, page: seq<string>, hash: string -> int): Result<Db>
  {
    if page == EmptyPage then Ok(db)
    else
      match ProfileOf(page)
      case Err(e) => Err(e)
      case Ok(p) =>
      match PageStats(p, url)
      case Err(e) => Err(e)
      case Ok(stats) =>
      match FighterWrite(db, stats, p.urls)
      case Err(e) => Err(e)
      case Ok(db1) =>
      match StoreBouts(db1.bouts, p.fights, hash)
      case Err(e) => Err(e)
      case Ok(bouts) => Ok(db1.(bouts := bouts))
  }

  /** The statistics of a page carry the page's own URL. */
  lemma {:induction false} PageStatsUrl(p: Profile, url: string)
    requires PageStats(p, url).Ok?
    ensures "url" in PageStats(p, url).value && PageStats(p, url).value["url"] == Str(url)
  {
  }

  /** What a successful page write leaves: for the sentinel, nothing changed; otherwise the
      page parsed and its URL is processed. */
  lemma {:induction false} PageWriteOutcome(db: Db, url: string, page: seq<string>, hash: string -> int)
    requires PageWrite(db, url, page, hash).Ok?
    ensures page == EmptyPage ==> PageWrite(db, url, page, hash).value == db
    ensures page != EmptyPage ==> (
      && ProfileOf(page).Ok?
      && url in PageWrite(db, url, page, hash).value.urls
      && PageWrite(db, url, page, hash).value.urls[url] == UrlRow(None, Some(1)))
  {
    if page != EmptyPage {
      var p := ProfileOf(page).value;
      PageStatsUrl(p, url);
      var stats := PageStats(p, url).value;
      FighterWriteMarksOwnUrl(db, stats, p.urls);
    }
  }

  /** After a successful write of a profile page every link on the page is known and every
      bout of the page is stored under its key. */
  lemma {:induction false} PageWriteLinks(db: Db, url: string, page: seq<string>, hash: string -> int)
    requires PageWrite(db, url, page, hash).Ok? && page != EmptyPage
    ensures ProfileOf(page).Ok?
    ensures ProfileOf(page).value.urls <= PageWrite(db, url, page, hash).value.urls.Keys
    ensures forall f :: f in ProfileOf(page).value.fights ==> (FighterNames(f).Ok? && EventName(f).Ok?
      && KeyOf(f, hash) in PageWrite(db, url, page, hash).value.bouts)
  {
    var p := ProfileOf(page).value;
    var stats := PageStats(p, url).value;
    FighterWriteMarksOwnUrl(db, stats, p.urls);
    var db1 := FighterWrite(db, stats, p.urls).value;
    StoreBoutsKeeps(db1.bouts, p.fights, hash);
  }

  /** How the tables may change over a crawl: no URL disappears, a processed URL stays
      processed, a stored bout is never changed, and ids only grow. */
  predicate Grows(a: Db, b: Db)
  {
    && a.urls.Keys <= b.urls.Keys
    && (forall u :: u in a.urls && a.urls[u].processed == Some(1) ==> b.urls[u].processed == Some(1))
    && (forall id :: id in a.bouts ==> id in b.bouts && b.bouts[id] == a.bouts[id])
    && a.nextId <= b.nextId
  }

  /** Every URL among the first `n` of `list` whose page is not empty is processed in `db`. */
  predicate VisitedUpTo(db: Db, list: seq<string>, n: nat, fetch: Fetcher)
  {
    forall j :: 0 <= j < n && j < |list| && Fetched(list[j], fetch) != EmptyPage ==>
      (list[j] in db.urls && db.urls[list[j]].processed == Some(1))
  }

  lemma {:induction false} VisitedStep(a: Db, b: Db, list: seq<string>, i: nat, fetch: Fetcher)
    requires i < |list| && VisitedUpTo(a, list, i, fetch) && Grows(a, b)
    requires Fetched(list[i], fetch) != EmptyPage ==> (list[i] in b.urls && b.urls[list[i]].processed == Some(1))
    ensures VisitedUpTo(b, list, i + 1, fetch)
  {
  }

  lemma {:induction false} VisitedAll(db: Db, list: seq<string>, fetch: Fetcher)
    requires VisitedUpTo(db, list, |list|, fetch)
    ensures forall u :: u in list && Fetched(u, fetch) != EmptyPage ==> (u in db.urls && db.urls[u].processed == Some(1))
  {
  }

  lemma {:induction false} GrowsReflexive(a: Db)
    ensures Grows(a, a)
  {
  }

  lemma {:induction false} GrowsTransitive(a: Db, b: Db, c: Db)
    requires Grows(a, b) && Grows(b, c)
    ensures Grows(a, c)
  {
  }

  /** Discovery never un-processes a URL and a bout row is never overwritten. */
  lemma {:induction false} PageWriteGrows(db: Db, url: string, page: seq<string>, hash: string -> int)
    requires PageWrite(db, url, page, hash).Ok?
    ensures Grows(db, PageWrite(db, url, page, hash).value)
  {
    if page != EmptyPage {
      var p := ProfileOf(page).value;
      var stats := PageStats(p, url).value;
      var db1 := FighterWrite(db, stats, p.urls).value;
      FighterWriteGrows(db, stats, p.urls);
      StoreBoutsKeeps(db1.bouts, p.fights, hash);
    }
  }

  lemma {:induction false} FighterWriteGrows(db: Db, stats: map<string, Value>, links: set<string>)
    requires FighterWrite(db, stats, links).Ok?
    ensures Grows(db, FighterWrite(db, stats, links).value)
  {
  }

  /** A successful page write lets the tables grow, and marks its URL processed unless the
      page was the sentinel. */
  lemma {:induction false} PageStep(before: Db, after: Db, url: string, page: seq<string>, hash: string -> int)
    requires PageWrite(before, url, page, hash) == Ok(after)
    ensures Grows(before, after)
    ensures page != EmptyPage ==> (url in after.urls && after.urls[url].processed == Some(1))
  {
    PageWriteGrows(before, url, page, hash);
    PageWriteOutcome(before, url, page, hash);
  }

  /** A failing bout write leaves the rest of the page unwritten. */
  lemma {:induction false} StoreBoutsAborts(bouts: map<int, Row>, fights: seq<Fight>, hash: string -> int, k: nat)
    requires k <= |fights| && StoreBouts(bouts, fights[..k], hash).Err?
    ensures StoreBouts(bouts, fights, hash) == StoreBouts(bouts, fights[..k], hash)
  {
    if k < |fights| {
      var front := fights[..|fights| - 1];
      assert front[..k] == fights[..k];
      StoreBoutsAborts(bouts, front, hash, k);
    } else {
      assert fights[..k] == fights;
    }
  }

  /** Adding the URLs one at a time gives the same table as adding them together. */
  lemma {:induction false} AddUrlsStep(t: UrlTable, done: set<string>, u: string, processed: nat)
    ensures AddUrls(AddUrls(t, done, processed), {u}, processed) == AddUrls(t, done + {u}, processed)
  {
  }

  /** The first `i` items of a list, as a set. */
  function Listed(items: seq<string>, i: nat): set<string>
    requires i <= |items|
  {
    set j | 0 <= j < i :: items[j]
  }

  /** One URL's write, as the loop of `add_to_url_list` performs it. */
  function OneUrl(t: UrlTable, u: string, processed: nat): UrlTable
  {
    if processed != 0 then t[u := UrlRow(None, Some(processed))]
    else if u !in t then t[u := UrlRow(None, Some(0))] else t
  }

  lemma {:induction false} AddOne(t: UrlTable, u: string, processed: nat)
    ensures OneUrl(t, u, processed) == AddUrls(t, {u}, processed)
  {
  }

  lemma {:induction false} MembersListed(arg: UrlArg, items: seq<string>)
    requires items == match arg case Bare(u) => [u] case Urls(us) => us
    ensures Members(arg) == Listed(items, |items|)
  {
    forall u | u in items
      ensures u in Listed(items, |items|)
    {
      var j :| 0 <= j < |items| && items[j] == u;
    }
    assert Members(arg) == set u | u in items;
  }

  /** The loop of `add_to_url_list` extends its table by one URL a step. */
  lemma {:induction false} AddNext(t: UrlTable, items: seq<string>, i: nat, processed: nat)
    requires i < |items|
    ensures AddUrls(t, Listed(items, i + 1), processed) ==
      OneUrl(AddUrls(t, Listed(items, i), processed), items[i], processed)
  {
    AddUrlsStep(t, Listed(items, i), items[i], processed);
    AddOne(AddUrls(t, Listed(items, i), processed), items[i], processed);
    assert Listed(items, i + 1) == Listed(items, i) + {items[i]};
  }

  // ===========================================================================
  // The store and the crawl (fmcrawler_sql.py:82-146)
  // ===========================================================================

  /** The page `get_page` returns for a URL. */
  function Fetched(url: string, fetch: Fetcher): seq<string>
  {
    FirstFetch(NormalizeUrl(url), fetch, 0)
  }

  /** The database behind the crawler's cursor. */
  class Store {
    var urls: UrlTable
    var fighters: map<nat, Row>
    var nextId: nat
    var bouts: map<int, Row>

    function State(): Db
      reads this
    {
      Db(urls, fighters, nextId, bouts)
    }

    /** `init_db`: three empty tables; AUTOINCREMENT hands out 1 first. */
    constructor ()
      ensures State() == Db(map[], map[], 1, map[])
    {
      urls := map[];
      fighters := map[];
      nextId := 1;
      bouts := map[];
    }

    /** `get_url_list`: each queued URL once. */
    method GetUrlList() returns (r: seq<string>)
      ensures forall u :: u in r <==> u in Queued(urls)
      ensures Distinct(r)
    {
      r := Enumerate(Queued(urls));
    }

    /** `add_to_url_list`: one INSERT OR REPLACE (flag non-zero) or INSERT OR IGNORE (flag 0)
        per URL. */
    method AddToUrlList(arg: UrlArg, processed: nat)
      modifies this
      ensures urls == AddUrls(old(urls), Members(arg), processed)
      ensures fighters == old(fighters) && nextId == old(nextId) && bouts == old(bouts)
    {
      var items := match arg case Bare(u) => [u] case Urls(us) => us;
      MembersListed(arg, items);
      var i := 0;
      while i < |items|
        invariant 0 <= i <= |items|
        invariant urls == AddUrls(old(urls), Listed(items, i), processed)
        invariant fighters == old(fighters) && nextId == old(nextId) && bouts == old(bouts)
      {
        var u := items[i];
        AddNext(old(urls), items, i, processed);
        if processed != 0 {
          urls := urls[u := UrlRow(None, Some(processed))];
        } else if u !in urls {
          urls := urls[u := UrlRow(None, Some(0))];
        }
        i := i + 1;
      }
    }

    /** The FighterURLs writes of `write_fighter_to_database`: the link, the discovered URLs
        queued, the page's own URL marked processed. */
    method RecordUrls(url: string, id: nat, links: set<string>)
      modifies this
      ensures urls == AddUrls(AddUrls(LinkFighter(old(urls), url, id), links, 0), {url}, 1)
      ensures fighters == old(fighters) && nextId == old(nextId) && bouts == old(bouts)
    {
      urls := LinkFighter(urls, url, id);
      var discovered := Enumerate(links);
      assert Members(Urls(discovered)) == links;
      AddToUrlList(Urls(discovered), 0);
      assert Members(Urls([url])) == {url};
      AddToUrlList(Urls([url]), 1);
    }

    /** `write_fighter_to_database`. On an error the partial writes are left for the caller
        to roll back. */
    method WriteFighter(stats: map<string, Value>, links: set<string>) returns (r: Result<()>)
      modifies this
      ensures r.Ok? <==> FighterWrite(old(State()), stats, links).Ok?
      ensures r.Ok? ==> State() == FighterWrite(old(State()), stats, links).value
      ensures r.Err? ==> r.error == FighterWrite(old(State()), stats, links).error
    {
      if "url" !in stats {
        return Err(KeyError("url"));
      }
      var url := stats["url"];
      var keys := Enumerate(stats.Keys);
      var sql := InsertStatement(keys);
      if !ColumnsOk(stats) {
        return Err(OperationalError("INSERT INTO Fighters"));
      }
      // The lookup of the new id by name fails only for a NULL name; its failures are
      // checked before the INSERT, whose writes an error would roll back anyway.
      if "Name" !in stats {
        return Err(KeyError("Name"));
      }
      if stats["Name"] == Null || !url.Str? {
        return Err(TypeError);
      }
      InsertFighter(stats, url.s, links);
      r := Ok(());
    }

    /** The writes of `write_fighter_to_database` once its statement is accepted: the row
        under the next id, then the URL bookkeeping. */
    method InsertFighter(stats: map<string, Value>, url: string, links: set<string>)
      requires ColumnsOk(stats)
      modifies this
      ensures State() == Written(old(State()), stats, url, links)
    {
      var id := nextId;
      fighters := ReplaceFighter(fighters, id, RowOf(stats));
      nextId := id + 1;
      RecordUrls(url, id, links);
    }

    /** `write_fights_to_database`: the bouts in order, each checked and inserted. */
    method WriteFights(fights: seq<Fight>, hash: string -> int) returns (r: Result<()>)
      modifies this
      ensures r.Ok? <==> StoreBouts(old(bouts), fights, hash).Ok?
      ensures r.Ok? ==> bouts == StoreBouts(old(bouts), fights, hash).value
      ensures r.Err? ==> r.error == StoreBouts(old(bouts), fights, hash).error
      ensures urls == old(urls) && fighters == old(fighters) && nextId == old(nextId)
    {
      var i := 0;
      while i < |fights|
        invariant 0 <= i <= |fights|
        invariant StoreBouts(old(bouts), fights[..i], hash) == Ok(bouts)
        invariant urls == old(urls) && fighters == old(fighters) && nextId == old(nextId)
      {
        assert fights[..i + 1][..i] == fights[..i];
        var b := StoreBout(bouts, fights[i], hash);
        if b.Err? {
          StoreBoutsAborts(old(bouts), fights, hash, i + 1);
          return Err(b.error);
        }
        bouts := b.value;
        i := i + 1;
      }
      assert fights[..|fights|] == fights;
      r := Ok(());
    }

    /** Discards the writes since `saved`, as an uncommitted transaction is lost when the
        crawl stops on an exception. */
    method Rollback(saved: Db)
      modifies this
      ensures State() == saved
    {
      urls := saved.urls;
      fighters := saved.fighters;
      nextId := saved.nextId;
      bouts := saved.bouts;
    }

    /** `write_page_to_database` followed by its commit; a failure leaves the tables as the
        last commit left them. */
    method WritePage(url: string, fetch: Fetcher, hash: string -> int) returns (r: Result<()>)
      modifies this
      ensures r.Ok? <==> PageWrite(old(State()), url, Fetched(url, fetch), hash).Ok?
      ensures r.Ok? ==> State() == PageWrite(old(State()), url, Fetched(url, fetch), hash).value
      ensures r.Err? ==> State() == old(State())
      ensures r.Err? ==> r.error == PageWrite(old(State()), url, Fetched(url, fetch), hash).error
    {
      var saved := State();
      var page := GetPage(url, fetch);
      if page == EmptyPage {
        return Ok(());
      }
      var parsed := ParsePage(page);
      if parsed.Err? {
        return Err(parsed.error);
      }
      var profile := parsed.value;
      var stats := PageStats(profile, url);
      if stats.Err? {
        return Err(stats.error);
      }
      r := WriteFighter(stats.value, profile.urls);
      if r.Err? {
        Rollback(saved);
        return;
      }
      r := WriteFights(profile.fights, hash);
      if r.Err? {
        Rollback(saved);
        return;
      }
    }

    /** One URL of a round: its page written, as the round sees it. */
    method Visit(url: string, fetch: Fetcher, hash: string -> int) returns (r: Result<()>)
      modifies this
      ensures Grows(old(State()), State())
      ensures r.Ok? && Fetched(url, fetch) != EmptyPage ==> (url in urls && urls[url].processed == Some(1))
    {
      ghost var before := State();
      r := WritePage(url, fetch, hash);
      if r.Ok? {
        PageStep(before, State(), url, Fetched(url, fetch), hash);
      } else {
        GrowsReflexive(State());
      }
    }

    /** One round of `crawl`: every URL of the snapshot, in order; an error stops the crawl. */
    method Round(list: seq<string>, fetch: Fetcher, hash: string -> int) returns (r: Result<()>)
      modifies this
      ensures Grows(old(State()), State())
      ensures r.Ok? ==> forall u :: u in list && Fetched(u, fetch) != EmptyPage ==>
        (u in urls && urls[u].processed == Some(1))
    {
      GrowsReflexive(State());
      var i := 0;
      while i < |list|
        invariant 0 <= i <= |list|
        invariant Grows(old(State()), State())
        invariant VisitedUpTo(State(), list, i, fetch)
      {
        ghost var before := State();
        var w := Visit(list[i], fetch, hash);
        if w.Err? {
          return Err(w.error);
        }
        GrowsTransitive(old(State()), before, State());
        VisitedStep(before, State(), list, i, fetch);
        i := i + 1;
      }
      VisitedAll(State(), list, fetch);
      r := Ok(());
    }

    /** `crawl`: the start page, then `rounds` rounds over the queue as it stood before each
        round; the result is the queue left at the end. */
    method Crawl(start: string, rounds: nat, fetch: Fetcher, hash: string -> int) returns (r: Result<seq<string>>)
      modifies this
      ensures Grows(old(State()), State())
      ensures r.Ok? ==> forall u :: u in r.value <==> u in Queued(urls)
      ensures r.Ok? && Fetched(start, fetch) != EmptyPage ==> (start in urls && urls[start].processed == Some(1))
    {
      var w := Visit(start, fetch, hash);
      if w.Err? {
        return Err(w.error);
      }
      var list := GetUrlList();
      var k := 0;
      while k < rounds
        invariant Grows(old(State()), State())
        invariant forall u :: u in list <==> u in Queued(urls)
        invariant Fetched(start, fetch) != EmptyPage ==> (start in urls && urls[start].processed == Some(1))
      {
        ghost var mid := State();
        var res := Round(list, fetch, hash);
        GrowsTransitive(old(State()), mid, State());
        if res.Err? {
          return Err(res.error);
        }
        list := GetUrlList();
        k := k + 1;
      }
      r := Ok(list);
    }
  }
}
