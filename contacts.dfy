/** The console contact book (Day5/day5-contact-book.py): a dict from
    normalised names to phone numbers, changed by the add and delete menu
    options and read by view and search.  Python dicts iterate in insertion
    order, which decides the order of search results and the numbering of
    the delete menu, so the book keeps that order beside the map.  Console
    input arrives as already-read strings; the integer the delete menu reads
    arrives as an Option, None standing for the ValueError of int(). */
module ContactBook {
  import opened Text

  datatype Option<T> = None | Some(value: T)

  const NumberLength: nat := 10

  /** A number the add option accepts: exactly ten digits. */
  predicate ValidNumber(n: string)
  {
    |n| == NumberLength && IsDigits(n)
  }

  /** A key the add option can create: normalised, letters and single
      blanks, at least one letter. */
  predicate ValidName(n: string)
  {
    Normalized(n) && LettersAndBlanks(n)
  }

  /** No number is stored under two names. */
  ghost predicate Injective(contact: map<string, string>)
  {
    forall a, b :: a in contact && b in contact && contact[a] == contact[b] ==> a == b
  }

  /** What holds of the book between menu choices: order lists every key
      once, keys are valid names, values distinct ten-digit numbers. */
  ghost predicate BookInvariant(contact: map<string, string>, order: seq<string>)
  {
    && (forall k :: k in order <==> k in contact)
    && NoDuplicates(order)
    && (forall k :: k in contact ==> ValidName(k) && ValidNumber(contact[k]))
    && Injective(contact)
  }

  /** The messages of the add option, in the order the chain checks them. */
  datatype AddOutcome = EmptyName | NotLetters | NamePresent | NumberTaken | InvalidNumber | Added

  /** The add option's validation chain for a normalised name and a
      stripped number: the first failing test is the one reported. */
  function AddCheck(contact: map<string, string>, name: string, number: string): AddOutcome
  {
    if name == "" then EmptyName
    else if !IsAlpha(RemoveBlanks(name)) then NotLetters
    else if name in contact then NamePresent
    else if number in contact.Values then NumberTaken
    else if |number| != NumberLength || !IsDigits(number) then InvalidNumber
    else Added
  }

  /** An add succeeds exactly when the name is non-empty, made of letters
      and blanks, new, and the number is unused and ten digits; each
      rejection is reported only when every earlier test passed. */
  lemma AddCheckMeaning(contact: map<string, string>, name: string, number: string)
    ensures AddCheck(contact, name, number) == Added <==>
      && name != ""
      && LettersAndBlanks(name)
      && name !in contact
      && (forall k :: k in contact ==> contact[k] != number)
      && ValidNumber(number)
    ensures AddCheck(contact, name, number) == NotLetters <==> name != "" && !LettersAndBlanks(name)
    ensures AddCheck(contact, name, number) == NamePresent <==> LettersAndBlanks(name) && name in contact
    ensures AddCheck(contact, name, number) == NumberTaken <==>
      LettersAndBlanks(name) && name !in contact && number in contact.Values
    ensures AddCheck(contact, name, number) == InvalidNumber <==>
      LettersAndBlanks(name) && name !in contact && number !in contact.Values && !ValidNumber(number)
  {
    AlphaWithoutBlanks(name);
    if number in contact.Values {
      var k :| k in contact && contact[k] == number;
    }
  }

  /** What the chain guarantees about a name and number it accepts. */
  lemma AcceptedEntry(contact: map<string, string>, raw: string, number: string)
    requires AddCheck(contact, Normalize(raw), number) == Added
    ensures ValidName(Normalize(raw)) && Normalize(raw) !in contact
    ensures ValidNumber(number) && forall k :: k in contact ==> contact[k] != number
  {
    NormalizeMeaning(raw);
    AlphaWithoutBlanks(Normalize(raw));
  }

  /** Storing a valid new name with an unused valid number creates exactly
      one new key, keeps every other entry, and keeps the invariant. */
  lemma InsertKeepsInvariant(contact: map<string, string>, order: seq<string>, name: string, number: string)
    requires BookInvariant(contact, order)
    requires ValidName(name) && name !in contact
    requires ValidNumber(number) && forall k :: k in contact ==> contact[k] != number
    ensures BookInvariant(contact[name := number], order + [name])
    ensures contact[name := number].Keys == contact.Keys + {name}
    ensures |contact[name := number]| == |contact| + 1
    ensures forall k :: k in contact ==> contact[name := number][k] == contact[k]
  {
    var c := contact[name := number];
    assert c.Keys == contact.Keys + {name};
    AppendNew(order, name);
    assert forall k :: k in order + [name] <==> k in c;
    assert forall k :: k in c ==> ValidName(k) && ValidNumber(c[k]);
    InsertKeepsInjective(contact, name, number);
  }

  lemma InsertKeepsInjective(contact: map<string, string>, name: string, number: string)
    requires Injective(contact) && name !in contact
    requires forall k :: k in contact ==> contact[k] != number
    ensures Injective(contact[name := number])
  {
  }

  /** Deleting a key keeps the invariant and every other entry. */
  lemma DeleteKeepsInvariant(contact: map<string, string>, order: seq<string>, name: string)
    requires BookInvariant(contact, order) && name in contact
    ensures BookInvariant(contact - {name}, Remove(order, name))
    ensures (contact - {name}).Keys == contact.Keys - {name}
    ensures forall k :: k in contact && k != name ==> (contact - {name})[k] == contact[k]
  {
  }

  /** The names that contain q, in insertion order. */
  function Matches(order: seq<string>, q: string): (ms: seq<string>)
    ensures forall k :: k in ms <==> k in order && Contains(k, q)
    ensures NoDuplicates(order) ==> NoDuplicates(ms)
  {
    if order == [] then []
    else
      var init, last := order[..|order| - 1], order[|order| - 1];
      assert order == init + [last];
      assert NoDuplicates(order) ==> last !in init && NoDuplicates(init);
      Matches(init, q) + (if Contains(last, q) then [last] else [])
  }

  /** The (name, number) lines for a list of names of the book. */
  function EntriesOf(contact: map<string, string>, names: seq<string>): (r: seq<(string, string)>)
    requires forall k :: k in names ==> k in contact
    ensures |r| == |names|
    ensures forall i :: 0 <= i < |names| ==> r[i] == (names[i], contact[names[i]])
  {
    seq(|names|, i requires 0 <= i < |names| => (names[i], contact[names[i]]))
  }

  lemma MatchesOfLonger(order: seq<string>, i: nat, q: string)
    requires i < |order|
    ensures Matches(order[..i + 1], q) == Matches(order[..i], q) + (if Contains(order[i], q) then [order[i]] else [])
  {
    assert order[..i + 1][..i] == order[..i];
  }

  lemma EntriesOfLonger(contact: map<string, string>, names: seq<string>, name: string)
    requires forall k :: k in names ==> k in contact
    requires name in contact
    ensures EntriesOf(contact, names + [name]) == EntriesOf(contact, names) + [(name, contact[name])]
  {
  }

  /** One more name of the dict adds its item exactly when it contains q. */
  lemma EntriesStep(book: map<string, string>, names: seq<string>, i: nat, q: string)
    requires forall k :: k in names ==> k in book
    requires i < |names|
    ensures EntriesOf(book, Matches(names[..i + 1], q))
         == EntriesOf(book, Matches(names[..i], q)) + (if Contains(names[i], q) then [(names[i], book[names[i]])] else [])
  {
    MatchesOfLonger(names, i, q);
    if Contains(names[i], q) {
      EntriesOfLonger(book, Matches(names[..i], q), names[i]);
    }
  }

  /** The replies of the search option. */
  datatype SearchOutcome = SearchEmptyBook | EmptyQuery | BadQuery | NoMatch | Found(entries: seq<(string, string)>)

  /** Search: an empty book is reported before anything is read; then the
      normalised query must be non-empty and letters and blanks; then every
      name containing it is listed with its number, in insertion order. */
  function SearchResult(contact: map<string, string>, order: seq<string>, q: string): (r: SearchOutcome)
    requires forall k :: k in order ==> k in contact
  {
    if |contact| == 0 then SearchEmptyBook
    else if q == "" then EmptyQuery
    else if !IsAlpha(RemoveBlanks(q)) then BadQuery
    else
      var ms := Matches(order, q);
      if |ms| == 0 then NoMatch else Found(EntriesOf(contact, ms))
  }

  /** Search reports exactly the names containing the query, each with its
      own number, once each; found is false exactly when no name contains
      the query. */
  lemma SearchMeaning(contact: map<string, string>, order: seq<string>, q: string)
    requires BookInvariant(contact, order)
    requires |contact| > 0 && q != "" && LettersAndBlanks(q)
    ensures SearchResult(contact, order, q).Found? || SearchResult(contact, order, q) == NoMatch
    ensures SearchResult(contact, order, q) == NoMatch <==> forall k :: k in contact ==> !Contains(k, q)
    ensures var r := SearchResult(contact, order, q);
      r.Found? ==>
        && (forall i :: 0 <= i < |r.entries| ==>
              r.entries[i].0 in contact && Contains(r.entries[i].0, q) && r.entries[i].1 == contact[r.entries[i].0])
        && (forall k :: k in contact && Contains(k, q) ==> exists i :: 0 <= i < |r.entries| && r.entries[i].0 == k)
        && (forall i, j :: 0 <= i < j < |r.entries| ==> r.entries[i].0 != r.entries[j].0)
  {
    AlphaWithoutBlanks(q);
    var ms := Matches(order, q);
    if |ms| > 0 {
      assert ms[0] in ms;
      EntriesCoverMatches(contact, ms, q);
    } else {
      NoMatchMeansNone(contact, order, q);
    }
  }

  /** No match means no name of the book contains q. */
  lemma NoMatchMeansNone(contact: map<string, string>, order: seq<string>, q: string)
    requires forall k :: k in contact ==> k in order
    requires Matches(order, q) == []
    ensures forall k :: k in contact ==> !Contains(k, q)
  {
    forall k | k in contact
      ensures !Contains(k, q)
    {
      assert k in order;
    }
  }

  /** Every name that contains q has its item among the entries. */
  lemma EntriesCoverMatches(contact: map<string, string>, ms: seq<string>, q: string)
    requires forall k :: k in ms ==> k in contact
    ensures forall k :: k in ms ==> exists i :: 0 <= i < |ms| && EntriesOf(contact, ms)[i].0 == k
  {
    var es := EntriesOf(contact, ms);
    forall k | k in ms
      ensures exists i :: 0 <= i < |es| && es[i].0 == k
    {
      var i :| 0 <= i < |ms| && ms[i] == k;
      assert es[i].0 == k;
    }
  }

  /** The replies of the delete option. */
  datatype DeleteOutcome =
    | DeleteEmptyBook | EmptyTarget | BadTarget | NoTarget
    | Deleted(name: string) | InvalidSelection | NotANumber

  /** Delete: the same checks as search, then no match deletes nothing, a
      single match is deleted outright, and with several matches the
      selection (numbered from 1 in insertion order) picks the one to
      delete; a selection out of range or not a number deletes nothing. */
  function DeleteResult(contact: map<string, string>, order: seq<string>, q: string, selection: Option<int>): (r: DeleteOutcome)
  {
    if |contact| == 0 then DeleteEmptyBook
    else if q == "" then EmptyTarget
    else if !IsAlpha(RemoveBlanks(q)) then BadTarget
    else
      var ms := Matches(order, q);
      if |ms| == 0 then NoTarget
      else if |ms| == 1 then Deleted(ms[0])
      else if selection.None? then NotANumber
      else if 1 <= selection.value <= |ms| then Deleted(ms[selection.value - 1])
      else InvalidSelection
  }

  /** Only a name of the book that contains the query is ever deleted:
      the only match, or with several matches the chosen one; with several
      matches a deletion happens exactly when the selection is in range. */
  lemma DeleteMeaning(contact: map<string, string>, order: seq<string>, q: string, selection: Option<int>)
    requires BookInvariant(contact, order)
    ensures var r := DeleteResult(contact, order, q, selection);
      r.Deleted? ==> r.name in contact && Contains(r.name, q)
    ensures var r := DeleteResult(contact, order, q, selection);
      |contact| > 0 && q != "" && LettersAndBlanks(q) ==>
        && (r == NoTarget <==> forall k :: k in contact ==> !Contains(k, q))
        && (|Matches(order, q)| == 1 ==> r == Deleted(Matches(order, q)[0]))
        && (|Matches(order, q)| > 1 ==>
              (r.Deleted? <==> selection.Some? && 1 <= selection.value <= |Matches(order, q)|))
  {
    AlphaWithoutBlanks(q);
    var ms := Matches(order, q);
    if |ms| == 0 {
      NoMatchMeansNone(contact, order, q);
    } else {
      assert ms[0] in ms;
      if selection.Some? && 1 <= selection.value <= |ms| {
        assert ms[selection.value - 1] in ms;
      }
    }
  }

  /** The loop of the delete option that lists the names containing q,
      in dict order. */
  method CollectMatches(order: seq<string>, q: string) returns (matches: seq<string>)
    ensures matches == Matches(order, q)
  {
    matches := [];
    for i := 0 to |order|
      invariant matches == Matches(order[..i], q)
    {
      MatchesOfLonger(order, i, q);
      if Contains(order[i], q) {
        matches := matches + [order[i]];
      }
    }
    assert order[..|order|] == order;
  }

  /** The loop of the search option: the (name, number) items whose name
      contains q, in dict order, and whether there was one. */
  method CollectEntries(book: map<string, string>, names: seq<string>, q: string)
    returns (entries: seq<(string, string)>, found: bool)
    requires forall k :: k in names ==> k in book
    ensures entries == EntriesOf(book, Matches(names, q))
    ensures found <==> |entries| > 0
  {
    found := false;
    entries := [];
    for i := 0 to |names|
      invariant entries == EntriesOf(book, Matches(names[..i], q))
      invariant found == (|entries| > 0)
    {
      EntriesStep(book, names, i, q);
      var name := names[i];
      if Contains(name, q) {
        entries := entries + [(name, book[name])];
        found := true;
      }
    }
    assert names[..|names|] == names;
  }

  /** The reply of menu option 4 for a normalised query, before anything
      is deleted: the empty-book and query checks, then the matches in
      dict order and the choice among them. */
  method SelectTarget(contact: map<string, string>, order: seq<string>, q: string, selection: Option<int>)
    returns (r: DeleteOutcome)
    requires forall k :: k in order ==> k in contact
    ensures r == DeleteResult(contact, order, q, selection)
    ensures r.Deleted? ==> r.name in contact
  {
    if |contact| == 0 {
      return DeleteEmptyBook;
    }
    if q == "" {
      return EmptyTarget;
    }
    if !IsAlpha(RemoveBlanks(q)) {
      return BadTarget;
    }
    var matches := CollectMatches(order, q);
    if |matches| == 0 {
      r := NoTarget;
    } else if |matches| == 1 {
      assert matches[0] in matches;
      r := Deleted(matches[0]);
    } else if selection.None? {
      r := NotANumber;
    } else if 1 <= selection.value <= |matches| {
      assert matches[selection.value - 1] in matches;
      r := Deleted(matches[selection.value - 1]);
    } else {
      r := InvalidSelection;
    }
  }

  /** One pass of the menu loop: the integer choice and the lines the
      chosen option goes on to read (the name or query, the number, the
      delete menu's selection); options that read fewer ignore the rest. */
  datatype Command = Command(choice: int, text: string, number: string, selection: Option<int>)

  /** What one pass of the menu loop reports. */
  datatype Reply =
    | AddReply(add: AddOutcome)
    | ViewReply(names: seq<string>)
    | SearchReply(search: SearchOutcome)
    | DeleteReply(delete: DeleteOutcome)
    | Exiting
    | InvalidChoice

  /** The number of passes the menu loop makes: up to and including the
      first exit choice, or all of them. */
  function Passes(cmds: seq<Command>): (n: nat)
    ensures n <= |cmds|
    ensures forall i :: 0 <= i < n - 1 ==> cmds[i].choice != 5
    ensures n < |cmds| ==> n > 0 && cmds[n - 1].choice == 5
  {
    if cmds == [] then 0
    else if cmds[0].choice == 5 then 1
    else 1 + Passes(cmds[1..])
  }

  /** The book between two passes of the menu loop. */
  datatype Snapshot = Snapshot(contact: map<string, string>, order: seq<string>)

  ghost predicate SnapshotOk(s: Snapshot)
  {
    BookInvariant(s.contact, s.order)
  }

  /** Menu option 1 on a book: the validation chain on the normalised name
      and the stripped number; only an accepted entry is stored, last. */
  function AddPass(s: Snapshot, cmd: Command): (r: (Reply, Snapshot))
    requires SnapshotOk(s)
    ensures SnapshotOk(r.1)
    ensures r.0.AddReply? && (r.0.add == Added <==> |r.1.contact| == |s.contact| + 1)
    ensures r.0.add != Added ==> r.1 == s
  {
    var name, number := Normalize(cmd.text), Strip(cmd.number);
    var a := AddCheck(s.contact, name, number);
    if a == Added then
      AcceptedEntry(s.contact, cmd.text, number);
      InsertKeepsInvariant(s.contact, s.order, name, number);
      (AddReply(a), Snapshot(s.contact[name := number], s.order + [name]))
    else (AddReply(a), s)
  }

  /** Menu option 4 on a book: only the name DeleteResult picks is removed,
      from the dict and from the order. */
  function DeletePass(s: Snapshot, cmd: Command): (r: (Reply, Snapshot))
    requires SnapshotOk(s)
    ensures SnapshotOk(r.1)
    ensures r.0.DeleteReply? && (r.0.delete.Deleted? <==> |r.1.contact| == |s.contact| - 1)
    ensures !r.0.delete.Deleted? ==> r.1 == s
  {
    var d := DeleteResult(s.contact, s.order, Normalize(cmd.text), cmd.selection);
    if d.Deleted? then
      DeleteMeaning(s.contact, s.order, Normalize(cmd.text), cmd.selection);
      DeleteKeepsInvariant(s.contact, s.order, d.name);
      (DeleteReply(d), Snapshot(s.contact - {d.name}, Remove(s.order, d.name)))
    else (DeleteReply(d), s)
  }

  /** One pass of the menu loop on a book: the reply and the book after it.
      Only add and delete change the book; every pass keeps its invariant. */
  function Step(s: Snapshot, cmd: Command): (r: (Reply, Snapshot))
    requires SnapshotOk(s)
    ensures SnapshotOk(r.1)
    ensures r.0 == Exiting <==> cmd.choice == 5
    ensures r.0 == InvalidChoice <==> !(1 <= cmd.choice <= 5)
    ensures cmd.choice != 1 && cmd.choice != 4 ==> r.1 == s
  {
    match cmd.choice
    case 1 => AddPass(s, cmd)
    case 2 => (ViewReply(Sorted(s.order)), s)
    case 3 => (SearchReply(SearchResult(s.contact, s.order, Normalize(cmd.text))), s)
    case 4 => DeletePass(s, cmd)
    case 5 => (Exiting, s)
    case _ => (InvalidChoice, s)
  }

  /** The menu loop over a list of commands: one reply per pass, up to and
      including the first exit, and the book the last pass leaves. */
  function Session(s: Snapshot, cmds: seq<Command>): (r: (seq<Reply>, Snapshot))
    requires SnapshotOk(s)
    ensures SnapshotOk(r.1)
    decreases |cmds|
  {
    if cmds == [] then ([], s)
    else
      var (reply, next) := Step(s, cmds[0]);
      if reply == Exiting then ([reply], next)
      else
        var rest := Session(next, cmds[1..]);
        ([reply] + rest.0, rest.1)
  }

  /** A session has one reply per pass of the loop, and a reply is the
      exit message exactly when its command chose option 5. */
  lemma {:induction false} SessionReplies(s: Snapshot, cmds: seq<Command>)
    requires SnapshotOk(s)
    ensures |Session(s, cmds).0| == Passes(cmds)
    ensures forall i :: 0 <= i < |Session(s, cmds).0| ==> (Session(s, cmds).0[i] == Exiting <==> cmds[i].choice == 5)
    decreases |cmds|
  {
    if cmds != [] {
      var (reply, next) := Step(s, cmds[0]);
      if reply != Exiting {
        SessionReplies(next, cmds[1..]);
        var r, rest := Session(s, cmds).0, Session(next, cmds[1..]).0;
        assert r == [reply] + rest;
        forall i | 1 <= i < |r|
          ensures r[i] == Exiting <==> cmds[i].choice == 5
        {
          assert r[i] == rest[i - 1] && cmds[i] == cmds[1..][i - 1];
        }
      }
    }
  }

  /** The first pass of a session, then the session on the rest. */
  lemma SessionUnfold(s: Snapshot, c: Command, rest: seq<Command>)
    requires SnapshotOk(s)
    ensures var (reply, next) := Step(s, c);
      && (reply == Exiting ==> Session(s, [c] + rest) == ([reply], next))
      && (reply != Exiting ==> Session(s, [c] + rest) == ([reply] + Session(next, rest).0, Session(next, rest).1))
  {
    assert ([c] + rest)[0] == c && ([c] + rest)[1..] == rest;
  }

  /** The menu loop's invariant across one pass: when the whole session
      is the replies so far followed by the session from here, the pass
      either ends it or leaves the same shape one command further on. */
  lemma SessionAfterPass(total: (seq<Reply>, Snapshot), done: seq<Reply>, before: Snapshot,
                         c: Command, tail: seq<Command>, reply: Reply, after: Snapshot)
    requires SnapshotOk(before)
    requires total.0 == done + Session(before, [c] + tail).0 && total.1 == Session(before, [c] + tail).1
    requires (reply, after) == Step(before, c)
    ensures reply == Exiting ==> total == (done + [reply], after)
    ensures reply != Exiting ==>
      total.0 == (done + [reply]) + Session(after, tail).0 && total.1 == Session(after, tail).1
  {
    SessionUnfold(before, c, tail);
    if reply != Exiting {
      var later := Session(after, tail);
      assert done + ([reply] + later.0) == (done + [reply]) + later.0;
    }
  }

  /** Commands after the first exit are never read: the session on the
      passes alone gives the same replies and the same book. */
  lemma {:induction false} SessionStopsAtExit(s: Snapshot, cmds: seq<Command>)
    requires SnapshotOk(s)
    ensures Session(s, cmds) == Session(s, cmds[..Passes(cmds)])
    decreases |cmds|
  {
    if cmds != [] {
      var (reply, next) := Step(s, cmds[0]);
      var short := cmds[..Passes(cmds)];
      assert short[0] == cmds[0];
      if reply != Exiting {
        SessionStopsAtExit(next, cmds[1..]);
        assert short[1..] == cmds[1..][..Passes(cmds[1..])];
      }
    }
  }

  class Book {
    var contact: map<string, string>
    var order: seq<string>

    ghost predicate Valid()
      reads this
    {
      BookInvariant(contact, order)
    }

    /** The script starts with an empty dict. */
    constructor ()
      ensures Valid() && contact == map[] && order == []
    {
      contact := map[];
      order := [];
    }

    /** Menu option 1: normalise the name, strip the number, run the
        validation chain and store the entry when every test passes. */
    method Add(rawName: string, rawNumber: string) returns (r: AddOutcome)
      requires Valid()
      modifies this
      ensures r == AddCheck(old(contact), Normalize(rawName), Strip(rawNumber))
      ensures r == Added ==>
        contact == old(contact)[Normalize(rawName) := Strip(rawNumber)] && order == old(order) + [Normalize(rawName)]
      ensures r != Added ==> contact == old(contact) && order == old(order)
      ensures Valid()
    {
      var name := Normalize(rawName);
      var number := Strip(rawNumber);
      if name == "" {
        r := EmptyName;
      } else if !IsAlpha(RemoveBlanks(name)) {
        r := NotLetters;
      } else if name in contact {
        r := NamePresent;
      } else if number in contact.Values {
        r := NumberTaken;
      } else if |number| != NumberLength || !IsDigits(number) {
        r := InvalidNumber;
      } else {
        AcceptedEntry(contact, rawName, number);
        InsertKeepsInvariant(contact, order, name, number);
        contact := contact[name := number];
        order := order + [name];
        r := Added;
      }
    }

    /** Menu option 2: the names in sorted order (empty for an empty book);
        each is shown with its number. */
    function View(): (names: seq<string>)
      requires Valid()
      reads this
      ensures Ascending(names) && |names| == |contact|
      ensures forall k :: k in names <==> k in contact
    {
      CountOfDistinct(order, contact.Keys);
      Sorted(order)
    }

    /** Menu option 3: the loop over the dict's items collects the names
        containing the normalised query and sets found. */
    method Search(rawQuery: string) returns (r: SearchOutcome)
      requires Valid()
      ensures r == SearchResult(contact, order, Normalize(rawQuery))
    {
      if |contact| == 0 {
        return SearchEmptyBook;
      }
      var q := Normalize(rawQuery);
      if q == "" {
        return EmptyQuery;
      }
      if !IsAlpha(RemoveBlanks(q)) {
        return BadQuery;
      }
      var entries, found := CollectEntries(contact, order, q);
      if !found {
        return NoMatch;
      }
      r := Found(entries);
    }

    /** Menu option 4: delete the only match, or the one the selection
        numbers; del keeps the order of the other names. */
    method Delete(rawQuery: string, selection: Option<int>) returns (r: DeleteOutcome)
      requires Valid()
      modifies this
      ensures r == DeleteResult(old(contact), old(order), Normalize(rawQuery), selection)
      ensures r.Deleted? ==> contact == old(contact) - {r.name} && order == Remove(old(order), r.name)
      ensures !r.Deleted? ==> contact == old(contact) && order == old(order)
      ensures Valid()
    {
      var q := Normalize(rawQuery);
      r := SelectTarget(contact, order, q, selection);
      if r.Deleted? {
        DeleteKeepsInvariant(contact, order, r.name);
        contact := contact - {r.name};
        order := Remove(order, r.name);
      }
    }

    /** One pass of the menu loop: dispatch on the choice. */
    method Handle(cmd: Command) returns (reply: Reply)
      requires Valid()
      modifies this
      ensures Valid()
      ensures (reply, Snapshot(contact, order)) == Step(Snapshot(old(contact), old(order)), cmd)
      ensures cmd.choice == 1 ==> reply == AddReply(AddCheck(old(contact), Normalize(cmd.text), Strip(cmd.number)))
      ensures cmd.choice == 2 ==> reply == ViewReply(Sorted(old(order)))
      ensures cmd.choice == 3 ==> reply == SearchReply(SearchResult(old(contact), old(order), Normalize(cmd.text)))
      ensures cmd.choice == 4 ==> reply == DeleteReply(DeleteResult(old(contact), old(order), Normalize(cmd.text), cmd.selection))
      ensures reply == Exiting <==> cmd.choice == 5
      ensures reply == InvalidChoice <==> !(1 <= cmd.choice <= 5)
    {
      match cmd.choice {
        case 1 =>
          var r := Add(cmd.text, cmd.number);
          reply := AddReply(r);
        case 2 =>
          reply := ViewReply(View());
        case 3 =>
          var r := Search(cmd.text);
          reply := SearchReply(r);
        case 4 =>
          var r := Delete(cmd.text, cmd.selection);
          reply := DeleteReply(r);
        case 5 =>
          reply := Exiting;
        case _ =>
          reply := InvalidChoice;
      }
    }

    /** The menu loop: one reply per pass, stopping after the exit choice.
        The replies and the final book are those of Session on the book it
        started from. */
    method Run(cmds: seq<Command>) returns (replies: seq<Reply>)
      requires Valid()
      modifies this
      ensures Valid()
      ensures (replies, Snapshot(contact, order)) == Session(Snapshot(old(contact), old(order)), cmds)
      ensures |replies| == Passes(cmds)
      ensures forall i :: 0 <= i < |replies| ==> (replies[i] == Exiting <==> cmds[i].choice == 5)
    {
      ghost var start := Snapshot(contact, order);
      replies := [];
      assert cmds[0..] == cmds;
      assert replies + Session(start, cmds).0 == Session(start, cmds).0;
      var i := 0;
      while i < |cmds|
        invariant 0 <= i <= |cmds| && Valid()
        invariant Session(start, cmds).1 == Session(Snapshot(contact, order), cmds[i..]).1
        invariant Session(start, cmds).0 == replies + Session(Snapshot(contact, order), cmds[i..]).0
      {
        ghost var before, done := Snapshot(contact, order), replies;
        assert cmds[i..] == [cmds[i]] + cmds[i + 1..];
        var reply := Handle(cmds[i]);
        SessionAfterPass(Session(start, cmds), done, before, cmds[i], cmds[i + 1..], reply, Snapshot(contact, order));
        replies := replies + [reply];
        if reply == Exiting {
          SessionReplies(start, cmds);
          return;
        }
        i := i + 1;
      }
      assert cmds[i..] == [];
      assert replies + [] == replies;
      SessionReplies(start, cmds);
    }
  }
}
