/** Hackathon records as the scrapers emit them, and the identity key
    under which the merge step deduplicates them. */
module Records {

  datatype Option<+T> = None | Some(value: T)

  /** One listing: the dictionary {"title", "date", "link"} the adapters
      append. Title and link may be None (the MLH adapter reads them with
      dict.get); the date is always built by an f-string, so it is text. */
  datatype Record = Record(title: Option<string>, date: string, link: Option<string>)

  /** What an adapter's future finishes with: the list it returned, or an
      exception that `future.result()` re-raises. */
  datatype Outcome = Completed(records: seq<Record>) | Raised

  /** How a Python f-string renders an optional text value: None prints
      as the four letters "None". */
  function Show(o: Option<string>): (s: string)
    ensures o.Some? ==> s == o.value
    ensures o.None? ==> s == "None"
  {
    match o
    case None => "None"
    case Some(text) => text
  }

  /** Two optional texts render alike exactly when they are equal or are
      a missing value and the text "None". */
  lemma ShowAgreesOnlyForNone(a: Option<string>, b: Option<string>)
    ensures Show(a) == Show(b) <==> a == b || {a, b} == {None, Some("None")}
  {
    if {a, b} == {None, Some("None")} {
      assert a == None || a == Some("None");
      assert b == None || b == Some("None");
    }
  }

  /** The deduplication key f"{title}|{link}": one concatenated string,
      not a pair. */
  function Key(r: Record): (k: string)
  {
    Show(r.title) + "|" + Show(r.link)
  }

  /** Index of the first occurrence of c in s, or |s| when there is none. */
  function FirstIndexOf(s: string, c: char): (i: nat)
    ensures i <= |s|
    ensures forall j :: 0 <= j < i ==> s[j] != c
    ensures i < |s| ==> s[i] == c
    ensures i == |s| <==> c !in s
    decreases |s|
  {
    if s == [] then 0
    else if s[0] == c then 0
    else 1 + FirstIndexOf(s[1..], c)
  }

  /** When c does not occur in a, the first c of a + [c] + b is the one
      right after a. */
  lemma {:induction false} FirstIndexAfterPrefix(a: string, c: char, b: string)
    requires c !in a
    ensures FirstIndexOf(a + [c] + b, c) == |a|
  {
    var s := a + [c] + b;
    var i := FirstIndexOf(s, c);
    assert s[|a|] == c;
    assert forall j :: 0 <= j < |a| ==> s[j] == a[j] && s[j] != c;
  }

  /** Reads a key back into its title and link texts by splitting at the
      first bar, the only inverse the concatenated key admits. */
  function SplitKey(k: string): (parts: (string, string))
    ensures FirstIndexOf(k, '|') < |k| ==> parts.0 + "|" + parts.1 == k
    ensures '|' !in parts.0
  {
    var i := FirstIndexOf(k, '|');
    if i < |k| then
      assert k == k[..i] + "|" + k[i + 1..];
      (k[..i], k[i + 1..])
    else (k, "")
  }

  /** Round trip: the key gives back the rendered title and link whenever
      the title text holds no bar. */
  lemma KeyRoundTrip(r: Record)
    requires '|' !in Show(r.title)
    ensures SplitKey(Key(r)) == (Show(r.title), Show(r.link))
  {
    FirstIndexAfterPrefix(Show(r.title), '|', Show(r.link));
    var k := Key(r);
    var n := |Show(r.title)|;
    assert k[..n] == Show(r.title);
    assert k[n + 1..] == Show(r.link);
  }

  /** So for bar-free titles equal keys mean equal rendered fields. */
  lemma KeyInjectiveWithoutBar(r1: Record, r2: Record)
    requires '|' !in Show(r1.title) && '|' !in Show(r2.title)
    ensures Key(r1) == Key(r2) <==> Show(r1.title) == Show(r2.title) && Show(r1.link) == Show(r2.link)
  {
    KeyRoundTrip(r1);
    KeyRoundTrip(r2);
  }

  /** A bar inside a title lets two different (title, link) pairs share a
      key, so the merge step treats them as one listing: moving the text
      between a bar of the title and the bar of the key over to the link
      leaves the key unchanged. */
  lemma BarInTitleCollides(a: string, b: string, c: string, date1: string, date2: string)
    ensures var r1 := Record(Some(a + "|" + b), date1, Some(c));
            var r2 := Record(Some(a), date2, Some(b + "|" + c));
            r1.title != r2.title && r1.link != r2.link && Key(r1) == Key(r2)
  {
    assert |a + "|" + b| != |a|;
    assert |b + "|" + c| != |c|;
    assert a + "|" + b + "|" + c == a + "|" + (b + "|" + c);
  }

  /** A missing title and the literal title "None" give the same key. */
  lemma MissingTitleCollidesWithNoneText(date1: string, date2: string, link: Option<string>)
    ensures Key(Record(None, date1, link)) == Key(Record(Some("None"), date2, link))
  {
  }
}
