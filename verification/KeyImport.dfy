/** Bulk import of keys: app/core/key_import.py and import_keys_text of app/api/control_plane.py. */
module KeyImport {
  import opened Common
  import opened Text
  import opened Keys
  import opened Lifecycle

  datatype Item = Item(lineNo: nat, secret: string, username: Option<string>, password: Option<string>,
                       verifiedAt: Option<int>)

  /** How parsing classifies a line; date parsing is a parameter. */
  datatype Line = Ignored | Parsed(item: Item) | Malformed

  predicate Bar(c: char) {
    c == '|'
  }

  predicate Tab(c: char) {
    c == '\t'
  }

  predicate Comma(c: char) {
    c == ','
  }

  /** The first separator that occurs splits the line: a bar, a tab, a comma, else white space. */
  function Fields(line: string): seq<string> {
    NonBlank(SplitBy(line, SplitterOf(line)))
  }

  function SplitterOf(line: string): char -> bool {
    if '|' in line then Bar else if '\t' in line then Tab else if ',' in line then Comma else IsSpace
  }

  function Classify(raw: string, lineNo: nat, parseDate: string -> Option<int>): Line {
    var line := Strip(raw);
    if line == "" || line[0] == '#' then Ignored
    else
      var parts := Fields(line);
      var item :=
        match |parts|
        case 1 => Some(Item(lineNo, parts[0], None, None, None))
        case 2 => Some(Item(lineNo, parts[1], Some(parts[0]), None, None))
        case 3 => Some(Item(lineNo, parts[2], Some(parts[0]), Some(parts[1]), None))
        case 4 =>
          var date := parseDate(parts[3]);
          if date.None? then None else Some(Item(lineNo, parts[2], Some(parts[0]), Some(parts[1]), date))
        case _ => None;
      if item.None? || |item.value.secret| < 8 then Malformed else Parsed(item.value)
  }

  /**
   * A line holds the secret; or user and secret; or user, password and secret; or these and a date that can be read.
   * A line of anything else, or with a secret of under 8 characters, is malformed; blank lines and comments are not.
   */
  lemma {:induction false} ClassifyMeans(raw: string, lineNo: nat, parseDate: string -> Option<int>)
    ensures var (line, parts) := (Strip(raw), Fields(Strip(raw)));
            var n := |parts|;
            match Classify(raw, lineNo, parseDate)
            case Ignored => line == "" || line[0] == '#'
            case Parsed(item) =>
              && line != "" && line[0] != '#' && 1 <= n <= 4
              && item.lineNo == lineNo && |item.secret| >= 8
              && item.secret == parts[if n == 4 then 2 else n - 1]
              && item.username == (if n == 1 then None else Some(parts[0]))
              && item.password == (if n <= 2 then None else Some(parts[1]))
              && (if n == 4 then item.verifiedAt == parseDate(parts[3]) != None else item.verifiedAt == None)
            case Malformed =>
              && line != "" && line[0] != '#'
              && (n == 0 || n > 4 || |parts[if n == 4 then 2 else n - 1]| < 8
                  || (n == 4 && parseDate(parts[3]) == None))
  {
  }

  /** A field: not blank, without white space around it and without a separator in it. */
  ghost predicate IsField(s: string) {
    s != "" && !IsSpace(s[0]) && !IsSpace(s[|s| - 1]) && forall i :: 0 <= i < |s| ==> s[i] !in {'|', '\t', ','}
  }

  ghost predicate AllFields(parts: seq<string>) {
    forall i :: 0 <= i < |parts| ==> IsField(parts[i])
  }

  /** The line with these fields. */
  function LineOf(parts: seq<string>, c: char): string
    requires parts != []
  {
    if |parts| == 1 then parts[0] else parts[0] + [c] + LineOf(parts[1..], c)
  }

  lemma {:induction false} LineSplits(parts: seq<string>, c: char)
    requires parts != [] && AllFields(parts) && c in {'|', '\t', ','}
    ensures SplitBy(LineOf(parts, c), SplitterOf([c])) == parts
    decreases |parts|
  {
    SplitWord(parts[0], SplitterOf([c]));
    if |parts| > 1 {
      LineSplits(parts[1..], c);
      SplitAround(parts[0], c, LineOf(parts[1..], c), SplitterOf([c]));
    }
  }

  /** The ends of a line are those of its first and last field, and its separators are the ones written. */
  lemma {:induction false} LineEnds(parts: seq<string>, c: char)
    requires parts != [] && AllFields(parts)
    ensures var line := LineOf(parts, c);
            line != "" && line[0] == parts[0][0] && !IsSpace(line[|line| - 1])
    decreases |parts|
  {
    assert IsField(parts[0]);
    if |parts| > 1 {
      LineEnds(parts[1..], c);
    }
  }

  lemma {:induction false} LineSeparators(parts: seq<string>, c: char, x: char)
    requires parts != [] && AllFields(parts) && x in {'|', '\t', ','}
    ensures x in LineOf(parts, c) <==> x == c && |parts| > 1
    decreases |parts|
  {
    assert IsField(parts[0]);
    if |parts| > 1 {
      LineSeparators(parts[1..], c, x);
    }
  }

  lemma {:induction false} FieldsAreKept(parts: seq<string>)
    requires AllFields(parts)
    ensures NonBlank(parts) == parts
    decreases |parts|
  {
    if parts != [] {
      FieldsAreKept(parts[1..]);
    }
  }

  /** What is written as fields is read as these fields, with any of the three separators. */
  lemma {:induction false} LineRoundTrip(parts: seq<string>, c: char)
    requires |parts| >= 2 && AllFields(parts) && c in {'|', '\t', ','}
    ensures Strip(LineOf(parts, c)) == LineOf(parts, c) && Fields(LineOf(parts, c)) == parts
  {
    LineEnds(parts, c);
    LineSplits(parts, c);
    FieldsAreKept(parts);
    LineSeparators(parts, c, '|');
    LineSeparators(parts, c, '\t');
    LineSeparators(parts, c, ',');
  }

  /** The lines of a text, numbered from 1, classified. */
  function ClassifyAll(lines: seq<string>, parseDate: string -> Option<int>): (ls: seq<Line>)
    ensures |ls| == |lines|
  {
    seq(|lines|, i requires 0 <= i < |lines| => Classify(lines[i], i + 1, parseDate))
  }

  function ItemsOf(ls: seq<Line>): seq<Item> {
    if ls == [] then []
    else ItemsOf(ls[..|ls| - 1]) + match ls[|ls| - 1] case Parsed(item) => [item] case _ => []
  }

  /** Numbers of the malformed lines. */
  function FailuresOf(ls: seq<Line>): seq<nat> {
    if ls == [] then []
    else FailuresOf(ls[..|ls| - 1]) + if ls[|ls| - 1].Malformed? then [|ls|] else []
  }

  /** Lines that are neither blank nor comments. */
  function Relevant(ls: seq<Line>): nat {
    if ls == [] then 0 else Relevant(ls[..|ls| - 1]) + if ls[|ls| - 1].Ignored? then 0 else 1
  }

  /** app/core/key_import.py: parse_keys_text, on the text's lines. */
  method ParseKeysText(lines: seq<string>, parseDate: string -> Option<int>)
    returns (items: seq<Item>, failures: seq<nat>)
    ensures items == ItemsOf(ClassifyAll(lines, parseDate))
    ensures failures == FailuresOf(ClassifyAll(lines, parseDate))
    ensures |items| + |failures| == Relevant(ClassifyAll(lines, parseDate))
  {
    ghost var ls := ClassifyAll(lines, parseDate);
    items, failures := [], [];
    for i := 0 to |lines|
      invariant items == ItemsOf(ls[..i]) && failures == FailuresOf(ls[..i])
      invariant |items| + |failures| == Relevant(ls[..i])
    {
      NextLine(ls, i);
      match Classify(lines[i], i + 1, parseDate) {
        case Ignored =>
        case Parsed(item) => items := items + [item];
        case Malformed => failures := failures + [i + 1];
      }
    }
    assert ls[..|lines|] == ls;
  }

  lemma {:induction false} NextLine(ls: seq<Line>, i: nat)
    requires i < |ls|
    ensures ItemsOf(ls[..i + 1]) == ItemsOf(ls[..i]) + if ls[i].Parsed? then [ls[i].item] else []
    ensures FailuresOf(ls[..i + 1]) == FailuresOf(ls[..i]) + if ls[i].Malformed? then [i + 1] else []
    ensures Relevant(ls[..i + 1]) == Relevant(ls[..i]) + if ls[i].Ignored? then 0 else 1
  {
    assert ls[..i + 1][..i] == ls[..i];
  }

  // ---------------------------------------------------------------------------
  // Importing the items
  // ---------------------------------------------------------------------------

  /** What an import request says about all of its keys. */
  datatype Params = Params(
    client: Option<int>,
    provider: string,
    isActive: bool,
    dailyQuota: Option<int>,
    maxConcurrent: int,
    ratePerMin: int,
    today: int)

  datatype Fate = Created | Updated | Skipped | Refused

  function DraftOf(item: Item, p: Params): Draft {
    Draft(p.client, p.provider, item.secret, item.username, item.password, item.verifiedAt, p.isActive, p.dailyQuota,
          p.maxConcurrent, p.ratePerMin, p.today)
  }

  function FillOf(item: Item, p: Params): Write {
    FillIn(p.client, item.username, item.password, item.verifiedAt)
  }

  /** Position of the row holding a secret, or the length. */
  function Holder(keys: Table, secret: string): (pos: nat)
    ensures pos <= |keys|
    ensures pos < |keys| ==> keys[pos].secret == secret
    ensures forall i :: 0 <= i < pos ==> keys[i].secret != secret
    ensures pos < |keys| <==> HasSecret(keys, secret)
  {
    if keys == [] || HasSecret(keys[..|keys| - 1], secret) then
      if keys == [] then 0 else Holder(keys[..|keys| - 1], secret)
    else if keys[|keys| - 1].secret == secret then |keys| - 1 else |keys|
  }

  /** The key already belongs to another client. */
  predicate Taken(k: ApiKey, p: Params) {
    p.client.Some? && k.client.Some? && k.client != p.client
  }

  /** One item: insert, or fill the gaps of the row that has the secret already. */
  function ImportOne(keys: Table, item: Item, p: Params): (Table, Fate) {
    var pos := Holder(keys, item.secret);
    if pos == |keys| then (Apply(keys, Create(DraftOf(item, p))), Created)
    else if Taken(keys[pos], p) then (keys, Refused)
    else if FilledIn(keys[pos], FillOf(item, p)) == keys[pos] then (keys, Skipped)
    else (keys[pos := FilledIn(keys[pos], FillOf(item, p))], Updated)
  }

  function ImportAll(keys: Table, items: seq<Item>, p: Params): (Table, seq<Fate>)
    decreases |items|
  {
    if items == [] then (keys, [])
    else
      var (before, fates) := ImportAll(keys, items[..|items| - 1], p);
      var (after, fate) := ImportOne(before, items[|items| - 1], p);
      (after, fates + [fate])
  }

  function CountOf(fates: seq<Fate>, fate: Fate): nat {
    if fates == [] then 0 else CountOf(fates[..|fates| - 1], fate) + if fates[|fates| - 1] == fate then 1 else 0
  }

  datatype Report = Rejected | Imported(created: nat, updated: nat, skipped: nat, failed: nat)

  /**
   * app/api/control_plane.py: import_keys_text. Every line that is not blank or a comment is created, updated,
   * skipped or failed, exactly once.
   */
  method ImportKeysText(keys: Table, lines: seq<string>, parseDate: string -> Option<int>, p: Params)
    returns (keys': Table, report: Report)
    ensures var ls := ClassifyAll(lines, parseDate);
            var outcome := ImportAll(keys, ItemsOf(ls), p);
            if ItemsOf(ls) == [] && FailuresOf(ls) != [] then
              report == Rejected && keys' == keys
            else
              && keys' == outcome.0
              && report == Imported(CountOf(outcome.1, Created), CountOf(outcome.1, Updated),
                                    CountOf(outcome.1, Skipped),
                                    |FailuresOf(ls)| + CountOf(outcome.1, Refused))
              && report.created + report.updated + report.skipped + report.failed == Relevant(ls)
  {
    var items, failures := ParseKeysText(lines, parseDate);
    if items == [] && failures != [] {
      return keys, Rejected;
    }
    var created, updated, skipped, refused;
    keys', created, updated, skipped, refused := ImportItems(keys, items, p);
    report := Imported(created, updated, skipped, |failures| + refused);
  }

  /** The import loop. */
  method ImportItems(keys: Table, items: seq<Item>, p: Params)
    returns (keys': Table, created: nat, updated: nat, skipped: nat, refused: nat)
    ensures keys' == ImportAll(keys, items, p).0
    ensures Counts(ImportAll(keys, items, p).1, created, updated, skipped, refused)
    ensures created + updated + skipped + refused == |items|
  {
    keys', created, updated, skipped, refused := keys, 0, 0, 0, 0;
    for i := 0 to |items|
      invariant keys' == ImportAll(keys, items[..i], p).0
      invariant Counts(ImportAll(keys, items[..i], p).1, created, updated, skipped, refused)
      invariant created + updated + skipped + refused == i
    {
      ImportNext(keys, items, i, p);
      CountLast(ImportAll(keys, items[..i], p).1, ImportOne(keys', items[i], p).1);
      var pos := Holder(keys', items[i].secret);
      if pos == |keys'| {
        keys', created := Apply(keys', Create(DraftOf(items[i], p))), created + 1;
      } else if Taken(keys'[pos], p) {
        refused := refused + 1;
      } else {
        var filled := FilledIn(keys'[pos], FillOf(items[i], p));
        if filled == keys'[pos] {
          skipped := skipped + 1;
        } else {
          keys', updated := keys'[pos := filled], updated + 1;
        }
      }
    }
    assert items[..|items|] == items;
  }

  lemma {:induction false} ImportNext(keys: Table, items: seq<Item>, i: nat, p: Params)
    requires i < |items|
    ensures var before := ImportAll(keys, items[..i], p);
            var one := ImportOne(before.0, items[i], p);
            ImportAll(keys, items[..i + 1], p) == (one.0, before.1 + [one.1])
  {
    assert items[..i + 1][..i] == items[..i];
  }

  ghost predicate Counts(fates: seq<Fate>, created: int, updated: int, skipped: int, failed: int) {
    && created == CountOf(fates, Created) && updated == CountOf(fates, Updated)
    && skipped == CountOf(fates, Skipped) && failed == CountOf(fates, Refused)
  }

  lemma {:induction false} CountLast(fates: seq<Fate>, fate: Fate)
    ensures forall f :: CountOf(fates + [fate], f) == CountOf(fates, f) + if fate == f then 1 else 0
  {
    assert (fates + [fate])[..|fates|] == fates;
  }

  /** An update is the lifecycle's own FillIn write on that row. */
  lemma {:induction false} ImportIsLifecycleStep(keys: Table, item: Item, p: Params)
    requires Sorted(keys)
    ensures var (keys', fate) := ImportOne(keys, item, p);
            match fate
            case Created => keys' == Apply(keys, Create(DraftOf(item, p)))
            case Updated => keys' == Apply(keys, Edit(keys[Holder(keys, item.secret)].id, FillOf(item, p)))
            case _ => keys' == keys
  {
  }

  /**
   * A secret that no row holds makes a new row, unused and in order; one that another client's row holds is refused;
   * and any other only fills the gaps of the row that holds it, keeping what is there.
   */
  lemma {:induction false} ImportMeans(keys: Table, item: Item, p: Params)
    requires Sorted(keys)
    ensures var (keys', fate) := ImportOne(keys, item, p);
            var pos := Holder(keys, item.secret);
            if pos == |keys| then
              && fate == Created && keys' == keys + [keys'[pos]] && Sorted(keys')
              && IsNewRow(keys'[pos], item, p)
            else if p.client.Some? && keys[pos].client.Some? && keys[pos].client != p.client then
              fate == Refused && keys' == keys
            else
              && keys' == keys[pos := keys'[pos]] && Fills(keys[pos], keys'[pos], item, p)
              && fate == if keys'[pos] == keys[pos] then Skipped else Updated
  {
  }

  ghost predicate IsNewRow(k: ApiKey, item: Item, p: Params) {
    && k.secret == item.secret && k.username == item.username && k.password == item.password
    && k.verifiedAt == item.verifiedAt && k.client == p.client && k.provider == p.provider
    && k.isActive == p.isActive && k.status == (if p.isActive then Active else Disabled)
    && k.dailyQuota == p.dailyQuota && k.dailyUsage == 0 && k.quotaResetAt == Some(p.today)
    && k.maxConcurrent == p.maxConcurrent && k.ratePerMin == p.ratePerMin
    && k.cooldownUntil == None && k.totalRequests == 0 && k.credits == None && k.nextRefreshAt == None
  }

  ghost predicate Fills(k: ApiKey, k': ApiKey, item: Item, p: Params) {
    && k' == k.(client := k'.client, username := k'.username, password := k'.password, verifiedAt := k'.verifiedAt)
    && k'.client == (if k.client.Some? then k.client else p.client)
    && (k.username.Some? && k.username.value != "" ==> k'.username == k.username)
    && (k.username == None || k.username.value == "" ==>
          k'.username == if item.username.Some? then item.username else k.username)
    && k'.password == (if k.password.Some? then k.password else item.password)
    && k'.verifiedAt == (if k.verifiedAt.Some? then k.verifiedAt else item.verifiedAt)
  }

  // ---------------------------------------------------------------------------
  // Importing again
  // ---------------------------------------------------------------------------

  /** What an item comes to when the same import is repeated. */
  function Again(fate: Fate): Fate {
    if fate == Refused then Refused else Skipped
  }

  /** Importing the item now changes nothing and has this fate. */
  ghost predicate Settled(keys: Table, item: Item, p: Params, fate: Fate) {
    ImportOne(keys, item, p) == (keys, fate)
  }

  lemma {:induction false} FillTwice(k: ApiKey, item: Item, p: Params)
    requires item.username.GetOr("x") != ""
    ensures FilledIn(FilledIn(k, FillOf(item, p)), FillOf(item, p)) == FilledIn(k, FillOf(item, p))
    ensures !Taken(k, p) ==> !Taken(FilledIn(k, FillOf(item, p)), p)
  {
  }

  /** Filling gaps for one item opens none for another of the same import. */
  lemma {:induction false} FillKeepsFilled(k: ApiKey, item: Item, other: Item, p: Params)
    requires FilledIn(k, FillOf(item, p)) == k && !Taken(k, p)
    requires other.username.GetOr("x") != "" && item.username.GetOr("x") != ""
    ensures FilledIn(FilledIn(k, FillOf(other, p)), FillOf(item, p)) == FilledIn(k, FillOf(other, p))
    ensures !Taken(FilledIn(k, FillOf(other, p)), p)
  {
  }

  /** An item just imported is settled. */
  lemma {:induction false} OneSettles(keys: Table, item: Item, p: Params)
    requires item.username.GetOr("x") != ""
    ensures var (keys', fate) := ImportOne(keys, item, p);
            Settled(keys', item, p, Again(fate))
  {
    var (keys', fate) := ImportOne(keys, item, p);
    var pos := Holder(keys, item.secret);
    if pos == |keys| {
      CreatedSettles(keys, item, p);
    } else if fate == Updated {
      FillTwice(keys[pos], item, p);
      HolderIs(keys', item.secret, pos);
    }
  }

  lemma {:induction false} CreatedSettles(keys: Table, item: Item, p: Params)
    requires Holder(keys, item.secret) == |keys|
    ensures Settled(ImportOne(keys, item, p).0, item, p, Skipped)
  {
    var row := NewRow(NextId(keys), DraftOf(item, p));
    FreshIsFilled(NextId(keys), item, p);
    assert ImportOne(keys, item, p).0 == keys + [row];
    HolderIs(keys + [row], item.secret, |keys|);
  }

  lemma {:induction false} FreshIsFilled(id: int, item: Item, p: Params)
    ensures FilledIn(NewRow(id, DraftOf(item, p)), FillOf(item, p)) == NewRow(id, DraftOf(item, p))
    ensures !Taken(NewRow(id, DraftOf(item, p)), p)
  {
  }

  lemma {:induction false} HolderIs(keys: Table, secret: string, pos: nat)
    requires pos < |keys| && keys[pos].secret == secret
    requires forall i :: 0 <= i < pos ==> keys[i].secret != secret
    ensures Holder(keys, secret) == pos
  {
  }

  /** A settled item stays settled while the rest of the same import goes through. */
  lemma {:induction false} OtherKeepsSettled(keys: Table, item: Item, other: Item, p: Params, fate: Fate)
    requires other.username.GetOr("x") != "" && item.username.GetOr("x") != ""
    requires Settled(keys, item, p, fate) && (fate == Skipped || fate == Refused)
    ensures Settled(ImportOne(keys, other, p).0, item, p, fate)
  {
    var keys' := ImportOne(keys, other, p).0;
    var pos := Holder(keys, item.secret);
    assert pos < |keys|;
    assert pos < |keys'| && keys'[pos].secret == item.secret;
    HolderIs(keys', item.secret, pos);
    if keys'[pos] != keys[pos] && fate == Skipped {
      FillKeepsFilled(keys[pos], item, other, p);
    }
  }

  ghost predicate NamesNonEmpty(items: seq<Item>) {
    forall i :: 0 <= i < |items| ==> items[i].username.GetOr("x") != ""
  }

  /** After an import every one of its items is settled. */
  lemma {:induction false} AllSettle(keys: Table, items: seq<Item>, p: Params, i: nat)
    requires i < |items| && NamesNonEmpty(items)
    ensures |ImportAll(keys, items, p).1| == |items|
    ensures Settled(ImportAll(keys, items, p).0, items[i], p, Again(ImportAll(keys, items, p).1[i]))
    decreases |items|
  {
    var n := |items| - 1;
    var front := items[..n];
    var (before, fates) := ImportAll(keys, front, p);
    FatesAlign(keys, front, p);
    var (after, fate) := ImportOne(before, items[n], p);
    assert ImportAll(keys, items, p) == (after, fates + [fate]);
    if i == n {
      OneSettles(before, items[n], p);
    } else {
      AllSettle(keys, front, p, i);
      OtherKeepsSettled(before, items[i], items[n], p, Again(fates[i]));
    }
  }

  lemma {:induction false} FatesAlign(keys: Table, items: seq<Item>, p: Params)
    ensures |ImportAll(keys, items, p).1| == |items|
    decreases |items|
  {
    if items != [] {
      FatesAlign(keys, items[..|items| - 1], p);
    }
  }

  ghost predicate EachSettled(keys: Table, items: seq<Item>, p: Params, fates: seq<Fate>) {
    |fates| == |items| && forall i :: 0 <= i < |items| ==> Settled(keys, items[i], p, fates[i])
  }

  lemma {:induction false} SettledImportsNothing(keys: Table, items: seq<Item>, p: Params, fates: seq<Fate>)
    requires EachSettled(keys, items, p, fates)
    ensures ImportAll(keys, items, p) == (keys, fates)
    decreases |items|
  {
    if items != [] {
      var n := |items| - 1;
      PrefixSettled(keys, items, p, fates, n);
      SettledImportsNothing(keys, items[..n], p, fates[..n]);
      ImportNext(keys, items, n, p);
      assert Settled(keys, items[n], p, fates[n]);
      LastApart(items);
      LastApart(fates);
    }
  }

  lemma {:induction false} LastApart<T>(s: seq<T>)
    requires s != []
    ensures s[..|s| - 1] + [s[|s| - 1]] == s && s[..|s|] == s
  {
  }

  lemma {:induction false} PrefixSettled(keys: Table, items: seq<Item>, p: Params, fates: seq<Fate>, n: nat)
    requires n <= |items| && EachSettled(keys, items, p, fates)
    ensures EachSettled(keys, items[..n], p, fates[..n])
  {
    forall i | 0 <= i < n
      ensures Settled(keys, items[..n][i], p, fates[..n][i])
    {
      assert Settled(keys, items[i], p, fates[i]);
    }
  }

  /**
   * Importing the same items again for the same client leaves the table as it is, creates and updates nothing,
   * and fails exactly the items that failed the first time.
   */
  lemma {:induction false} ImportIsIdempotent(keys: Table, items: seq<Item>, p: Params)
    requires NamesNonEmpty(items)
    ensures var (keys', fates) := ImportAll(keys, items, p);
            var (keys'', fates') := ImportAll(keys', items, p);
            && keys'' == keys' && |fates'| == |fates| == |items|
            && forall i :: 0 <= i < |items| ==> fates'[i] == Again(fates[i])
  {
    var (keys', fates) := ImportAll(keys, items, p);
    FatesAlign(keys, items, p);
    var again := seq(|fates|, i requires 0 <= i < |fates| => Again(fates[i]));
    forall i | 0 <= i < |items|
      ensures Settled(keys', items[i], p, again[i])
    {
      AllSettle(keys, items, p, i);
    }
    SettledImportsNothing(keys', items, p, again);
  }

  /** Parsed items never carry an empty user name, so the theorem applies to every text. */
  lemma {:induction false} ParsedNamesNonEmpty(lines: seq<string>, parseDate: string -> Option<int>)
    ensures NamesNonEmpty(ItemsOf(ClassifyAll(lines, parseDate)))
  {
    var ls := ClassifyAll(lines, parseDate);
    forall i | 0 <= i < |ls| && ls[i].Parsed?
      ensures ls[i].item.username.GetOr("x") != ""
    {
      FieldsNonEmpty(Strip(lines[i]));
    }
    ItemsComeFromLines(ls);
    forall k | 0 <= k < |ItemsOf(ls)|
      ensures ItemsOf(ls)[k].username.GetOr("x") != ""
    {
      assert Parsed(ItemsOf(ls)[k]) in ls;
    }
  }

  lemma {:induction false} NoneOf(fates: seq<Fate>, fate: Fate)
    requires forall i :: 0 <= i < |fates| ==> fates[i] != fate
    ensures CountOf(fates, fate) == 0
  {
    if fates != [] {
      NoneOf(fates[..|fates| - 1], fate);
    }
  }

  /** Importing the same text again creates nothing, updates nothing and leaves the table as it is, for every text. */
  lemma {:induction false} TextImportIsIdempotent(keys: Table, lines: seq<string>, parseDate: string -> Option<int>,
                                                  p: Params)
    ensures var items := ItemsOf(ClassifyAll(lines, parseDate));
            var once := ImportAll(keys, items, p);
            var again := ImportAll(once.0, items, p);
            again.0 == once.0 && CountOf(again.1, Created) == 0 && CountOf(again.1, Updated) == 0
  {
    var items := ItemsOf(ClassifyAll(lines, parseDate));
    ParsedNamesNonEmpty(lines, parseDate);
    ImportIsIdempotent(keys, items, p);
    var again := ImportAll(ImportAll(keys, items, p).0, items, p).1;
    NoneOf(again, Created);
    NoneOf(again, Updated);
  }

  lemma {:induction false} FieldsNonEmpty(line: string)
    ensures forall i :: 0 <= i < |Fields(line)| ==> Fields(line)[i] != ""
  {
    NonBlankMeans(SplitBy(line, SplitterOf(line)));
  }

  lemma {:induction false} NonBlankMeans(parts: seq<string>)
    ensures forall i :: 0 <= i < |NonBlank(parts)| ==> NonBlank(parts)[i] != ""
  {
    if parts != [] {
      NonBlankMeans(parts[1..]);
    }
  }

  lemma {:induction false} ItemsComeFromLines(ls: seq<Line>)
    ensures forall k :: 0 <= k < |ItemsOf(ls)| ==> Parsed(ItemsOf(ls)[k]) in ls
  {
    if ls != [] {
      var front, last := ls[..|ls| - 1], ls[|ls| - 1];
      ItemsComeFromLines(front);
      assert last in ls && forall l :: l in front ==> l in ls;
    }
  }
}
