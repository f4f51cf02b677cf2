/** Date text conversions between the journal form (`YYYY-MM-DD` from the
    date input, sent as `DD/MM/YYYY`) and the journal service (which turns
    any date containing `/` back into `YYYY-MM-DD`). */
module Dates {
  import opened Outcomes
  import opened Text

  /** Array destructuring `const [a, b, c] = parts`: a missing part is
      `undefined`, which a template literal renders as the text "undefined". */
  function Part(parts: seq<string>, i: nat): string
  {
    if i < |parts| then parts[i] else "undefined"
  }

  /** Server side: a date containing `/` is read as `DD/MM/YYYY` and
      rewritten `YYYY-MM-DD`; any other date text is kept. */
  function DisplayToIso(date: string): (r: string)
    ensures '/' !in date ==> r == date
    ensures '/' in date ==> '-' in r
  {
    if '/' in date then
      var p := Split(date, '/');
      Part(p, 2) + "-" + Part(p, 1) + "-" + Part(p, 0)
    else date
  }

  /** Client side: the `YYYY-MM-DD` of the date input sent as `DD/MM/YYYY`. */
  function IsoToDisplay(date: string): (r: string)
    ensures '/' in r
  {
    var p := Split(date, '-');
    Part(p, 2) + "/" + Part(p, 1) + "/" + Part(p, 0)
  }

  /** Three date fields free of either separator. */
  predicate PlainField(s: string) { '-' !in s && '/' !in s }

  /** Splitting `a<sep>b<sep>c` on `sep` gives back the three fields. */
  lemma SplitThree(a: string, b: string, c: string, sep: char)
    requires sep !in a && sep !in b && sep !in c
    ensures Split(a + [sep] + b + [sep] + c, sep) == [a, b, c]
  {
    assert a + [sep] + b + [sep] + c == a + [sep] + (b + [sep] + c);
    SplitAtSep(a, b + [sep] + c, sep);
    SplitAtSep(b, c, sep);
    SplitNoSep(c, sep);
  }

  /** The date the journal form sends is stored as the date the user
      picked: the client and server conversions compose to the identity. */
  lemma DateRoundTrip(year: string, month: string, day: string)
    requires PlainField(year) && PlainField(month) && PlainField(day)
    ensures DisplayToIso(IsoToDisplay(year + "-" + month + "-" + day)) == year + "-" + month + "-" + day
  {
    SplitThree(year, month, day, '-');
    assert year + "-" + month + "-" + day == year + ['-'] + month + ['-'] + day;
    var shown := IsoToDisplay(year + "-" + month + "-" + day);
    assert shown == day + ['/'] + month + ['/'] + year;
    SplitThree(day, month, year, '/');
  }

  /** The inverse direction: a `DD/MM/YYYY` date converted by the server
      and shown again by the form's conversion is unchanged. */
  lemma DisplayRoundTrip(day: string, month: string, year: string)
    requires PlainField(year) && PlainField(month) && PlainField(day)
    ensures IsoToDisplay(DisplayToIso(day + "/" + month + "/" + year)) == day + "/" + month + "/" + year
  {
    assert day + "/" + month + "/" + year == day + ['/'] + month + ['/'] + year;
    assert '/' in day + "/" + month + "/" + year by {
      assert (day + "/" + month + "/" + year)[|day|] == '/';
    }
    SplitThree(day, month, year, '/');
    SplitThree(year, month, day, '-');
    assert year + "-" + month + "-" + day == year + ['-'] + month + ['-'] + day;
  }

  /** `parseDate` of the journal list: a missing date, or one the platform's
      date parser (`parse`, standing for `new Date(x).getTime()`, `None` for
      an invalid date) cannot read, counts as the epoch. */
  function DateKey(date: Option<string>, parse: string -> Option<int>): (r: int)
    ensures (date.None? || date.value == "") ==> r == 0
    ensures date.Some? && date.value != "" && parse(date.value).Some? ==> r == parse(date.value).value
    ensures date.Some? && parse(date.value).None? ==> r == 0
  {
    match date
    case None => 0
    case Some(s) => if s == "" then 0 else parse(s).GetOr(0)
  }
}
