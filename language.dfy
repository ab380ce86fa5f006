/** Accept-Language handling: the parsed, deduplicated and sorted language
    list cached on the request state, the rule that picks a language from the
    database's language rows, and the enumerator over the list. */
module Language {
  import opened Wrappers
  import opened Text

  /** One `[language, quality]` pair of the list. */
  datatype LangQuality = LangQuality(lang: string, quality: int)

  /** `+entry[1].replace(/^q=/, '')`: the quality a `q=` part denotes; the
      float conversion is not modelled. */
  type QualityParser = string -> int

  // ---- parsing ----

  /** `substr(0, 2)`. */
  function FirstTwo(s: string): (r: string)
    ensures |r| <= 2 && StartsWith(s, r)
    ensures |s| >= 2 ==> |r| == 2
  {
    if |s| <= 2 then s else s[..2]
  }

  /** The pair one comma-separated entry contributes: the first two
      characters before its first `;`, untrimmed, and quality 1 when there is
      no `;` part. */
  function EntryOf(piece: string, parseQ: QualityParser): LangQuality
  {
    var entry := Split(piece, ';');
    LangQuality(FirstTwo(entry[0]), if |entry| == 1 then 1 else parseQ(entry[1]))
  }

  function Entries(pieces: seq<string>, parseQ: QualityParser): (es: seq<LangQuality>)
    ensures |es| == |pieces|
    ensures forall i :: 0 <= i < |pieces| ==> es[i] == EntryOf(pieces[i], parseQ)
  {
    seq(|pieces|, i requires 0 <= i < |pieces| => EntryOf(pieces[i], parseQ))
  }

  lemma EntryWithoutQuality(piece: string, parseQ: QualityParser)
    requires ';' !in piece
    ensures EntryOf(piece, parseQ) == LangQuality(FirstTwo(piece), 1)
  {
    SplitWithoutSeparator(piece, ';');
  }

  lemma EntryWithQuality(lang: string, q: string, parseQ: QualityParser)
    requires ';' !in lang
    ensures EntryOf(lang + ";" + q, parseQ) == LangQuality(FirstTwo(lang), parseQ(Split(q, ';')[0]))
  {
    SplitAfterPiece(lang, ';', q);
  }

  // ---- keys, first occurrences and maximum qualities ----

  function Keys(s: seq<LangQuality>): (ks: seq<string>)
    ensures |ks| == |s|
    ensures forall i :: 0 <= i < |s| ==> ks[i] == s[i].lang
  {
    seq(|s|, i requires 0 <= i < |s| => s[i].lang)
  }

  predicate NoDuplicates(ks: seq<string>)
  {
    forall i, j :: 0 <= i < j < |ks| ==> ks[i] != ks[j]
  }

  /** The keys in order of first occurrence, each once. */
  function Distinct(ks: seq<string>): (d: seq<string>)
    ensures forall k :: k in d <==> k in ks
    ensures NoDuplicates(d)
  {
    if ks == [] then []
    else
      var init := ks[..|ks| - 1];
      assert ks == init + [ks[|ks| - 1]];
      if ks[|ks| - 1] in init then Distinct(init) else Distinct(init) + [ks[|ks| - 1]]
  }

  function FirstIndex(ks: seq<string>, k: string): (r: nat)
    requires k in ks
    ensures r < |ks| && ks[r] == k
    ensures forall j :: 0 <= j < r ==> ks[j] != k
  {
    if ks[0] == k then 0 else 1 + FirstIndex(ks[1..], k)
  }

  lemma FirstIndexOfInit(init: seq<string>, last: string, k: string)
    requires k in init + [last]
    ensures k in init ==> FirstIndex(init + [last], k) == FirstIndex(init, k)
    ensures k !in init ==> FirstIndex(init + [last], k) == |init|
  {
    var ks := init + [last];
    var r := FirstIndex(ks, k);
    if k in init {
      var r0 := FirstIndex(init, k);
      assert ks[r0] == k;
      assert r <= r0;
      assert init[r] == k;
    }
  }

  /** Every key of `d` occurs in `ks`, and `d` lists them in the order of
      their first occurrences there. */
  predicate InFirstOccurrenceOrder(ks: seq<string>, d: seq<string>)
  {
    && (forall a :: 0 <= a < |d| ==> d[a] in ks)
    && (forall a, b :: 0 <= a < b < |d| ==> FirstIndex(ks, d[a]) < FirstIndex(ks, d[b]))
  }

  /** `Distinct` keeps the keys in the order of their first occurrences. */
  lemma {:induction false} DistinctInFirstOccurrenceOrder(ks: seq<string>)
    ensures InFirstOccurrenceOrder(ks, Distinct(ks))
  {
    if ks != [] {
      var init := ks[..|ks| - 1];
      var last := ks[|ks| - 1];
      assert ks == init + [last];
      DistinctInFirstOccurrenceOrder(init);
      var d := Distinct(ks);
      var d0 := Distinct(init);
      if last in init {
        assert d == d0;
        forall a, b | 0 <= a < b < |d| ensures FirstIndex(ks, d[a]) < FirstIndex(ks, d[b]) {
          FirstIndexOfInit(init, last, d[a]);
          FirstIndexOfInit(init, last, d[b]);
          assert a < b < |d0| && d[a] == d0[a] && d[b] == d0[b];
          assert FirstIndex(init, d0[a]) < FirstIndex(init, d0[b]);
        }
      } else {
        assert d == d0 + [last];
        forall a, b | 0 <= a < b < |d| ensures FirstIndex(ks, d[a]) < FirstIndex(ks, d[b]) {
          assert d[a] == d0[a] && d0[a] in init;
          FirstIndexOfInit(init, last, d[a]);
          FirstIndexOfInit(init, last, d[b]);
          if b < |d0| {
            assert d[b] == d0[b];
            assert FirstIndex(init, d0[a]) < FirstIndex(init, d0[b]);
          } else {
            assert d[b] == last;
          }
        }
      }
    }
  }

  lemma KeysOfInit(e: seq<LangQuality>)
    requires e != []
    ensures Keys(e[..|e| - 1]) == Keys(e)[..|e| - 1]
    ensures Keys(e) == Keys(e[..|e| - 1]) + [e[|e| - 1].lang]
  {
  }

  /** The quality a key ends up with: the first occurrence's, raised by every
      later occurrence with a higher one. */
  function MaxQuality(e: seq<LangQuality>, k: string): int
    requires k in Keys(e)
  {
    var init := e[..|e| - 1];
    var last := e[|e| - 1];
    KeysOfInit(e);
    if last.lang == k && (k !in Keys(init) || MaxQuality(init, k) < last.quality) then last.quality
    else MaxQuality(init, k)
  }

  /** It is the maximum of the key's qualities: no occurrence is higher, and
      one occurrence has it. */
  lemma {:induction false} MaxQualityIsMaximum(e: seq<LangQuality>, k: string)
    requires k in Keys(e)
    ensures forall j :: 0 <= j < |e| && e[j].lang == k ==> e[j].quality <= MaxQuality(e, k)
    ensures exists j :: 0 <= j < |e| && e[j].lang == k && e[j].quality == MaxQuality(e, k)
  {
    var init := e[..|e| - 1];
    var last := e[|e| - 1];
    KeysOfInit(e);
    if k in Keys(init) {
      MaxQualityIsMaximum(init, k);
      var j :| 0 <= j < |init| && init[j].lang == k && init[j].quality == MaxQuality(init, k);
      assert e[j] == init[j];
      if last.lang == k && MaxQuality(init, k) < last.quality {
        assert e[|e| - 1].quality == MaxQuality(e, k);
      }
    } else {
      assert last.lang == k;
      assert e[|e| - 1].lang == k && e[|e| - 1].quality == MaxQuality(e, k);
    }
  }

  /** The reference for the deduplicating loop: one pair per distinct key, in
      first-occurrence order, with the key's maximum quality. */
  function Merged(e: seq<LangQuality>): (m: seq<LangQuality>)
    ensures Keys(m) == Distinct(Keys(e))
  {
    var d := Distinct(Keys(e));
    seq(|d|, i requires 0 <= i < |d| => LangQuality(d[i], MaxQuality(e, d[i])))
  }

  // ---- the loops of the header parse ----

  /** The in-place raise of `updateQuality`: the first pair with the key gets
      the new quality if its own is lower. */
  function RaiseQuality(s: seq<LangQuality>, k: string, q: int): (r: seq<LangQuality>)
    ensures Keys(r) == Keys(s)
  {
    if s == [] then []
    else if s[0].lang == k then (if s[0].quality < q then [LangQuality(k, q)] + s[1..] else s)
    else [s[0]] + RaiseQuality(s[1..], k, q)
  }

  lemma {:induction false} RaiseQualityAt(s: seq<LangQuality>, k: string, q: int, i: nat)
    requires i < |s| && s[i].lang == k
    requires forall j :: 0 <= j < i ==> s[j].lang != k
    ensures RaiseQuality(s, k, q) == if s[i].quality < q then s[i := LangQuality(k, q)] else s
  {
    if i > 0 {
      var tail := s[1..];
      assert tail[i - 1] == s[i];
      RaiseQualityAt(tail, k, q, i - 1);
      assert RaiseQuality(s, k, q) == [s[0]] + RaiseQuality(tail, k, q);
      if s[i].quality < q {
        var t := tail[i - 1 := LangQuality(k, q)];
        var u := s[i := LangQuality(k, q)];
        assert |[s[0]] + t| == |u|;
        forall j | 0 <= j < |u| ensures ([s[0]] + t)[j] == u[j] {
          if j > 0 {
            assert ([s[0]] + t)[j] == t[j - 1];
          }
        }
      } else {
        assert [s[0]] + tail == s;
      }
    }
  }

  method UpdateQuality(clean: seq<LangQuality>, k: string, q: int) returns (r: seq<LangQuality>)
    requires k in Keys(clean)
    ensures r == RaiseQuality(clean, k, q)
  {
    r := clean;
    var i := 0;
    var l := |clean|;
    while i < l
      invariant 0 <= i <= l
      invariant r == clean
      invariant forall j :: 0 <= j < i ==> clean[j].lang != k
    {
      if r[i].lang == k {
        RaiseQualityAt(clean, k, q, i);
        if r[i].quality < q {
          r := r[i := LangQuality(k, q)];
        }
        return;
      }
      i := i + 1;
    }
    assert false;
  }

  /** One step of the parse loop on the list built so far. */
  function Step(clean: seq<LangQuality>, x: LangQuality): (r: seq<LangQuality>)
  {
    if x.lang in Keys(clean) then RaiseQuality(clean, x.lang, x.quality) else clean + [x]
  }

  lemma KeysSnoc(e: seq<LangQuality>, x: LangQuality)
    ensures Keys(e + [x]) == Keys(e) + [x.lang]
  {
  }

  lemma DistinctSnoc(ks: seq<string>, k: string)
    ensures Distinct(ks + [k]) == if k in ks then Distinct(ks) else Distinct(ks) + [k]
  {
    assert (ks + [k])[..|ks|] == ks;
  }

  /** One more entry raises its key's maximum if it is higher and leaves the
      other keys' alone. */
  lemma MaxQualitySnoc(e: seq<LangQuality>, x: LangQuality, k: string)
    requires k in Keys(e + [x])
    ensures k != x.lang ==> k in Keys(e)
    ensures MaxQuality(e + [x], k) ==
      if k == x.lang && (k !in Keys(e) || MaxQuality(e, k) < x.quality) then x.quality else MaxQuality(e, k)
  {
    var e' := e + [x];
    assert e'[..|e'| - 1] == e;
    KeysOfInit(e');
  }

  lemma MergedSnocNew(e: seq<LangQuality>, x: LangQuality)
    requires x.lang !in Keys(e)
    ensures Merged(e + [x]) == Merged(e) + [x]
  {
    var e' := e + [x];
    KeysSnoc(e, x);
    DistinctSnoc(Keys(e), x.lang);
    var d := Distinct(Keys(e));
    var m := Merged(e);
    var m' := Merged(e');
    assert |m'| == |d| + 1;
    forall i | 0 <= i < |d| ensures m'[i] == m[i] {
      assert d[i] in Keys(e);
      MaxQualitySnoc(e, x, d[i]);
    }
    MaxQualitySnoc(e, x, x.lang);
    assert m'[|d|] == x;
  }

  lemma MergedSnocKnown(e: seq<LangQuality>, x: LangQuality)
    requires x.lang in Keys(e)
    ensures Merged(e + [x]) == RaiseQuality(Merged(e), x.lang, x.quality)
  {
    var e' := e + [x];
    KeysSnoc(e, x);
    DistinctSnoc(Keys(e), x.lang);
    var d := Distinct(Keys(e));
    var m := Merged(e);
    var m' := Merged(e');
    assert x.lang in d;
    var p :| 0 <= p < |d| && d[p] == x.lang;
    RaiseQualityAt(m, x.lang, x.quality, p);
    ghost var raised := if m[p].quality < x.quality then m[p := LangQuality(x.lang, x.quality)] else m;
    assert |m'| == |raised|;
    forall i | 0 <= i < |d| ensures m'[i] == raised[i] {
      assert d[i] in Keys(e);
      MaxQualitySnoc(e, x, d[i]);
      if i != p {
        assert d[i] != x.lang;
      }
    }
  }

  /** Appending an entry to the header changes the reference list exactly as
      one step of the loop does. */
  lemma MergedSnoc(e: seq<LangQuality>, x: LangQuality)
    ensures Merged(e + [x]) == Step(Merged(e), x)
  {
    assert x.lang in Keys(Merged(e)) <==> x.lang in Keys(e);
    if x.lang in Keys(e) {
      MergedSnocKnown(e, x);
    } else {
      MergedSnocNew(e, x);
    }
  }

  lemma CollectStep(es: seq<LangQuality>, i: nat)
    requires i < |es|
    ensures Merged(es[..i + 1]) == Step(Merged(es[..i]), es[i])
  {
    assert es[..i + 1] == es[..i] + [es[i]];
    MergedSnoc(es[..i], es[i]);
  }

  /** The loop over the header's entries: a new key is appended, a known key
      has its quality raised. */
  method CollectQualities(pieces: seq<string>, parseQ: QualityParser) returns (clean: seq<LangQuality>)
    ensures clean == Merged(Entries(pieces, parseQ))
  {
    ghost var es := Entries(pieces, parseQ);
    clean := [];
    var keys: seq<string> := [];
    var i := 0;
    var l := |pieces|;
    while i < l
      invariant 0 <= i <= l
      invariant clean == Merged(es[..i])
      invariant keys == Keys(clean)
    {
      var entry := EntryOf(pieces[i], parseQ);
      CollectStep(es, i);
      if entry.lang !in keys {
        KeysSnoc(clean, entry);
        clean := clean + [entry];
        keys := keys + [entry.lang];
      } else {
        clean := UpdateQuality(clean, entry.lang, entry.quality);
      }
      i := i + 1;
    }
    assert es[..i] == es;
  }

  // ---- sorting by quality ----

  predicate SortedByQuality(s: seq<LangQuality>)
  {
    forall i, j :: 0 <= i < j < |s| ==> s[i].quality >= s[j].quality
  }

  predicate UniqueLangs(s: seq<LangQuality>)
  {
    forall i, j :: 0 <= i < j < |s| ==> s[i].lang != s[j].lang
  }

  /** Inserts before the first pair of lower or equal quality. */
  function Insert(x: LangQuality, s: seq<LangQuality>): seq<LangQuality>
  {
    if s == [] || s[0].quality <= x.quality then [x] + s else [s[0]] + Insert(x, s[1..])
  }

  /** The comparator `$b[1] - $a[1]`: highest quality first. */
  function SortByQuality(s: seq<LangQuality>): seq<LangQuality>
  {
    if s == [] then [] else Insert(s[0], SortByQuality(s[1..]))
  }

  lemma {:induction false} InsertPermutes(x: LangQuality, s: seq<LangQuality>)
    ensures multiset(Insert(x, s)) == multiset(s) + multiset{x}
  {
    if s != [] && s[0].quality > x.quality {
      InsertPermutes(x, s[1..]);
      assert s == [s[0]] + s[1..];
    }
  }

  lemma InsertMembers(x: LangQuality, s: seq<LangQuality>, y: LangQuality)
    requires y in Insert(x, s)
    ensures y == x || y in s
  {
    InsertPermutes(x, s);
    assert y in multiset(Insert(x, s));
  }

  lemma {:induction false} InsertSorted(x: LangQuality, s: seq<LangQuality>)
    requires SortedByQuality(s)
    ensures SortedByQuality(Insert(x, s))
  {
    if s != [] && s[0].quality > x.quality {
      var rest := Insert(x, s[1..]);
      InsertSorted(x, s[1..]);
      forall j | 0 <= j < |rest| ensures s[0].quality >= rest[j].quality {
        InsertMembers(x, s[1..], rest[j]);
      }
      assert Insert(x, s) == [s[0]] + rest;
    }
  }

  lemma {:induction false} InsertUnique(x: LangQuality, s: seq<LangQuality>)
    requires UniqueLangs(s)
    requires forall y :: y in s ==> y.lang != x.lang
    ensures UniqueLangs(Insert(x, s))
  {
    if s != [] && s[0].quality > x.quality {
      var rest := Insert(x, s[1..]);
      InsertUnique(x, s[1..]);
      forall j | 0 <= j < |rest| ensures s[0].lang != rest[j].lang {
        InsertMembers(x, s[1..], rest[j]);
      }
      assert Insert(x, s) == [s[0]] + rest;
    }
  }

  /** The sort orders by non-increasing quality and keeps every pair. */
  lemma {:induction false} SortByQualityCorrect(s: seq<LangQuality>)
    ensures SortedByQuality(SortByQuality(s))
    ensures multiset(SortByQuality(s)) == multiset(s)
  {
    if s != [] {
      SortByQualityCorrect(s[1..]);
      InsertSorted(s[0], SortByQuality(s[1..]));
      InsertPermutes(s[0], SortByQuality(s[1..]));
      assert s == [s[0]] + s[1..];
    }
  }

  /** Sorting a list with one pair per language keeps one pair per language. */
  lemma {:induction false} SortByQualityUnique(s: seq<LangQuality>)
    requires UniqueLangs(s)
    ensures UniqueLangs(SortByQuality(s))
  {
    if s != [] {
      SortByQualityUnique(s[1..]);
      SortByQualityCorrect(s[1..]);
      forall y | y in SortByQuality(s[1..]) ensures y.lang != s[0].lang {
        assert y in multiset(SortByQuality(s[1..]));
        var j :| 0 <= j < |s[1..]| && s[1..][j] == y;
        assert s[j + 1] == y;
      }
      InsertUnique(s[0], SortByQuality(s[1..]));
    }
  }

  // ---- the cached list ----

  /** What `getAcceptLanguageList` computes for a header (None when the
      header is undefined). */
  function AcceptLanguageList(header: Option<string>, parseQ: QualityParser): seq<LangQuality>
  {
    match header
    case None => []
    case Some(h) => SortByQuality(Merged(Entries(Split(h, ','), parseQ)))
  }

  lemma MergedPairs(e: seq<LangQuality>, y: LangQuality)
    requires y in Merged(e)
    ensures y.lang in Keys(e) && y.quality == MaxQuality(e, y.lang)
  {
    var d := Distinct(Keys(e));
    var i :| 0 <= i < |Merged(e)| && Merged(e)[i] == y;
    assert y.lang == d[i];
  }

  lemma MergedUnique(e: seq<LangQuality>)
    ensures UniqueLangs(Merged(e))
  {
    var m := Merged(e);
    forall i, j | 0 <= i < j < |m| ensures m[i].lang != m[j].lang {
      assert Keys(m)[i] == m[i].lang && Keys(m)[j] == m[j].lang;
    }
  }

  /** The list holds the pairs of the first-occurrence list, ordered by
      non-increasing quality, one per language. */
  lemma AcceptLanguageListSorted(h: string, parseQ: QualityParser)
    ensures var list := AcceptLanguageList(Some(h), parseQ);
      && multiset(list) == multiset(Merged(Entries(Split(h, ','), parseQ)))
      && SortedByQuality(list)
      && UniqueLangs(list)
  {
    var m := Merged(Entries(Split(h, ','), parseQ));
    SortByQualityCorrect(m);
    MergedUnique(m);
    SortByQualityUnique(m);
  }

  lemma PermutedPairs(list: seq<LangQuality>, e: seq<LangQuality>)
    requires multiset(list) == multiset(Merged(e))
    ensures forall i :: 0 <= i < |list| ==> list[i].lang in Keys(e) && list[i].quality == MaxQuality(e, list[i].lang)
  {
    forall i | 0 <= i < |list| ensures list[i].lang in Keys(e) && list[i].quality == MaxQuality(e, list[i].lang) {
      assert list[i] in multiset(Merged(e));
      MergedPairs(e, list[i]);
    }
  }

  lemma PermutedKeys(list: seq<LangQuality>, e: seq<LangQuality>)
    requires multiset(list) == multiset(Merged(e))
    ensures forall k :: k in Keys(e) ==> k in Keys(list)
  {
    var m := Merged(e);
    forall k | k in Keys(e) ensures k in Keys(list) {
      assert k in Keys(m);
      var i :| 0 <= i < |m| && m[i].lang == k;
      assert m[i] in multiset(list);
      var j :| 0 <= j < |list| && list[j] == m[i];
      assert Keys(list)[j] == k;
    }
  }

  /** Every language of the header appears in the list, nothing else does,
      each with the highest quality the header gives it; an undefined header
      gives the empty list. */
  lemma AcceptLanguageListKeys(header: Option<string>, parseQ: QualityParser)
    ensures header.None? ==> AcceptLanguageList(header, parseQ) == []
    ensures header.Some? ==>
      var e := Entries(Split(header.value, ','), parseQ);
      var list := AcceptLanguageList(header, parseQ);
      && (forall k :: k in Keys(list) <==> k in Keys(e))
      && (forall i :: 0 <= i < |list| ==> list[i].quality == MaxQuality(e, list[i].lang))
  {
    if header.Some? {
      var e := Entries(Split(header.value, ','), parseQ);
      var list := SortByQuality(Merged(e));
      SortByQualityCorrect(Merged(e));
      PermutedPairs(list, e);
      PermutedKeys(list, e);
    }
  }

  // ---- the request state ----

  /** The parts of a request state this file reads and writes: the request's
      `accept-language` header and the two cache slots.  The same JavaScript
      object's database configuration, which `newSQL` only reads, is the
      value Pool.RequestState. */
  class RequestState {
    const acceptLanguage: Option<string>
    var languages: Option<seq<LangQuality>>
    var language: Option<string>

    constructor (acceptLanguage: Option<string>)
      ensures this.acceptLanguage == acceptLanguage
      ensures languages == None && language == None
    {
      this.acceptLanguage := acceptLanguage;
      languages := None;
      language := None;
    }
  }

  /** The list a call sees: the cached one, or the one the header gives. */
  function ListFor(cached: Option<seq<LangQuality>>, header: Option<string>, parseQ: QualityParser): seq<LangQuality>
  {
    if cached.Some? then cached.value else AcceptLanguageList(header, parseQ)
  }

  /** `getAcceptLanguageList`: computed once per request state, then served
      from the cache. */
  method GetAcceptLanguageList(state: RequestState, parseQ: QualityParser) returns (list: seq<LangQuality>)
    modifies state
    ensures list == ListFor(old(state.languages), state.acceptLanguage, parseQ)
    ensures state.languages == Some(list)
    ensures state.language == old(state.language)
  {
    if state.languages.None? {
      if state.acceptLanguage.None? {
        state.languages := Some([]);
      } else {
        var langs := Split(state.acceptLanguage.value, ',');
        var clean := CollectQualities(langs, parseQ);
        var sorted := SortByQuality(clean);
        state.languages := Some(sorted);
      }
    }
    list := state.languages.value;
  }

  // ---- choosing the language ----

  /** The first accepted language the database offers, or "en". */
  function FirstOffered(names: seq<string>, accepted: seq<LangQuality>): string
  {
    if accepted == [] then "en"
    else if accepted[0].lang in names then accepted[0].lang
    else FirstOffered(names, accepted[1..])
  }

  /** The choice `getLanguage` makes from the database's language names (in
      ID order) and the accepted list. */
  function ChosenLanguage(names: seq<string>, accepted: seq<LangQuality>): string
  {
    if |names| == 0 then (if |accepted| == 0 then "en" else accepted[0].lang)
    else if |accepted| == 0 then names[0]
    else FirstOffered(names, accepted)
  }

  lemma {:induction false} FirstOfferedRule(names: seq<string>, accepted: seq<LangQuality>)
    ensures (exists i :: 0 <= i < |accepted| && accepted[i].lang in names) ==>
      exists i :: 0 <= i < |accepted| && accepted[i].lang in names
        && FirstOffered(names, accepted) == accepted[i].lang
        && forall j :: 0 <= j < i ==> accepted[j].lang !in names
    ensures (forall i :: 0 <= i < |accepted| ==> accepted[i].lang !in names) ==>
      FirstOffered(names, accepted) == "en"
  {
    if accepted != [] && accepted[0].lang !in names {
      FirstOfferedRule(names, accepted[1..]);
      if exists i :: 0 <= i < |accepted| && accepted[i].lang in names {
        var i :| 0 <= i < |accepted| && accepted[i].lang in names;
        assert accepted[1..][i - 1].lang in names;
        var i' :| 0 <= i' < |accepted[1..]| && accepted[1..][i'].lang in names
          && FirstOffered(names, accepted[1..]) == accepted[1..][i'].lang
          && forall j :: 0 <= j < i' ==> accepted[1..][j].lang !in names;
        assert forall j :: 0 <= j < i' + 1 ==> accepted[j].lang !in names by {
          forall j | 0 <= j < i' + 1 ensures accepted[j].lang !in names {
            if j > 0 {
              assert accepted[j] == accepted[1..][j - 1];
            }
          }
        }
        assert accepted[i' + 1] == accepted[1..][i'];
      } else {
        forall i | 0 <= i < |accepted[1..]| ensures accepted[1..][i].lang !in names {
          assert accepted[1..][i] == accepted[i + 1];
        }
      }
    }
  }

  /** The choice rule: with no database languages, the best accepted one (or
      "en"); with no accepted languages, the first database language;
      otherwise the earliest accepted language the database has, or "en". */
  lemma ChosenLanguageRule(names: seq<string>, accepted: seq<LangQuality>)
    ensures |names| == 0 && |accepted| == 0 ==> ChosenLanguage(names, accepted) == "en"
    ensures |names| == 0 && |accepted| > 0 ==> ChosenLanguage(names, accepted) == accepted[0].lang
    ensures |names| > 0 && |accepted| == 0 ==> ChosenLanguage(names, accepted) == names[0]
    ensures |names| > 0 && |accepted| > 0 && (exists i :: 0 <= i < |accepted| && accepted[i].lang in names) ==>
      exists i :: 0 <= i < |accepted| && accepted[i].lang in names
        && ChosenLanguage(names, accepted) == accepted[i].lang
        && forall j :: 0 <= j < i ==> accepted[j].lang !in names
    ensures |names| > 0 && (forall i :: 0 <= i < |accepted| ==> accepted[i].lang !in names) && |accepted| > 0 ==>
      ChosenLanguage(names, accepted) == "en"
  {
    FirstOfferedRule(names, accepted);
  }

  /** On a list sorted by quality, the chosen language has the highest
      quality among the accepted languages the database offers. */
  lemma ChosenHasHighestQuality(names: seq<string>, accepted: seq<LangQuality>, j: nat)
    requires SortedByQuality(accepted)
    requires |names| > 0 && j < |accepted| && accepted[j].lang in names
    ensures exists i ::
              && 0 <= i < |accepted|
              && accepted[i].lang == ChosenLanguage(names, accepted)
              && accepted[i].lang in names
              && accepted[i].quality >= accepted[j].quality
  {
    ChosenLanguageRule(names, accepted);
    var i :| 0 <= i < |accepted| && accepted[i].lang in names
      && ChosenLanguage(names, accepted) == accepted[i].lang
      && forall j' :: 0 <= j' < i ==> accepted[j'].lang !in names;
    assert i <= j;
  }

  /** The nested loops of `getLanguage`: for each accepted language in
      order, scan the database names for it; stop at the first hit. */
  method ChooseLanguage(names: seq<string>, accepted: seq<LangQuality>) returns (lang: string)
    ensures lang == ChosenLanguage(names, accepted)
  {
    if |names| <= 0 {
      if |accepted| <= 0 {
        lang := "en";
      } else {
        lang := accepted[0].lang;
      }
    } else if |accepted| <= 0 {
      lang := names[0];
    } else {
      var i := 0;
      var l := |names|;
      var lll := |accepted|;
      var done := false;
      lang := "";
      while i < lll && !done
        invariant 0 <= i <= lll
        invariant !done ==> FirstOffered(names, accepted[i..]) == FirstOffered(names, accepted)
        invariant done ==> lang == FirstOffered(names, accepted)
      {
        var j := 0;
        while j < l
          invariant 0 <= j <= l
          invariant !done
          invariant forall j' :: 0 <= j' < j ==> names[j'] != accepted[i].lang
        {
          if names[j] == accepted[i].lang {
            lang := accepted[i].lang;
            done := true;
            break;
          }
          j := j + 1;
        }
        assert accepted[i..][1..] == accepted[i + 1..];
        i := i + 1;
      }
      if !done {
        assert accepted[i..] == [];
        lang := "en";
      }
    }
  }

  /** `getLanguage` with the list read from the request state it was given.
      `names` is the database's language rows in ID order, or None when no
      session or no rows were obtained: the promise then never settles and
      nothing is cached. */
  method GetLanguage(state: RequestState, names: Option<seq<string>>, parseQ: QualityParser) returns (r: Option<string>)
    modifies state
    ensures old(state.language).Some? ==>
      r == old(state.language) && state.language == old(state.language) && state.languages == old(state.languages)
    ensures old(state.language).None? && names.None? ==>
      r.None? && state.language == old(state.language) && state.languages == old(state.languages)
    ensures old(state.language).None? && names.Some? ==>
      var list := ListFor(old(state.languages), state.acceptLanguage, parseQ);
      && r == Some(ChosenLanguage(names.value, list))
      && state.language == r
      && state.languages == Some(list)
  {
    if state.language.Some? {
      return state.language;
    }
    if names.None? {
      return None;
    }
    var list := GetAcceptLanguageList(state, parseQ);
    var lang := ChooseLanguage(names.value, list);
    state.language := Some(lang);
    r := Some(lang);
  }

  /** A second call returns what the first one cached. */
  method GetLanguageTwice(state: RequestState, names: seq<string>, later: Option<seq<string>>, parseQ: QualityParser)
    returns (first: Option<string>, second: Option<string>)
    modifies state
    ensures first.Some? && second == first
  {
    first := GetLanguage(state, Some(names), parseQ);
    second := GetLanguage(state, later, parseQ);
  }

  /** `getLanguage` as written: the list is requested without the request
      state, so reading its cache throws a TypeError inside the callback
      and the promise never settles. */
  datatype AsWrittenOutcome = Cached(lang: string) | NeverSettles | ThrowsTypeError

  function GetLanguageAsWritten(cachedLanguage: Option<string>, names: Option<seq<string>>): AsWrittenOutcome
  {
    if cachedLanguage.Some? then Cached(cachedLanguage.value)
    else if names.None? then NeverSettles
    else ThrowsTypeError
  }

  /** As written, a request state without a cached language never gets one. */
  lemma AsWrittenNeverChooses(cachedLanguage: Option<string>, names: Option<seq<string>>)
    ensures GetLanguageAsWritten(cachedLanguage, names).Cached? <==> cachedLanguage.Some?
    ensures cachedLanguage.None? && names.Some? ==> GetLanguageAsWritten(cachedLanguage, names) == ThrowsTypeError
  {
  }

  /** A header "de" and database languages "en", "de": the corrected call
      chooses "de", the code as written throws. */
  lemma AsWrittenMissesChoice(parseQ: QualityParser)
    ensures GetLanguageAsWritten(None, Some(["en", "de"])) == ThrowsTypeError
    ensures ChosenLanguage(["en", "de"], ListFor(None, Some("de"), parseQ)) == "de"
  {
    SplitWithoutSeparator("de", ',');
    EntryWithoutQuality("de", parseQ);
    var x := LangQuality("de", 1);
    assert Entries(Split("de", ','), parseQ) == [] + [x];
    MergedSnocNew([], x);
    assert Merged([]) == [];
    assert SortByQuality([x]) == [x];
  }

  // ---- the enumerator ----

  /** `getAcceptLanguageEnumerator`'s object: a cursor before the first pair. */
  class AcceptLanguageEnumerator {
    const langs: seq<LangQuality>
    var index: int
    var currentLanguage: string
    var currentQuality: int

    /** The cursor never moves before its start.  It has no upper bound:
        `next()` increments the index on every call, past the end too. */
    ghost predicate Valid()
      reads this
    {
      -1 <= index
    }

    constructor (langs: seq<LangQuality>)
      ensures Valid() && this.langs == langs && index == -1
      ensures currentLanguage == "" && currentQuality == 0
    {
      this.langs := langs;
      index := -1;
      currentLanguage := "";
      currentQuality := 0;
    }

    /** Advances; true and the pair's fields while a pair is left. */
    method Next() returns (r: bool)
      requires Valid()
      modifies this
      ensures Valid() && index == old(index) + 1
      ensures r <==> index < |langs|
      ensures r ==> currentLanguage == langs[index].lang && currentQuality == langs[index].quality
      ensures !r ==> currentLanguage == old(currentLanguage) && currentQuality == old(currentQuality)
    {
      index := index + 1;
      r := index < |langs|;
      if r {
        currentLanguage := langs[index].lang;
        currentQuality := langs[index].quality;
      }
    }
  }

  method GetAcceptLanguageEnumerator(state: RequestState, parseQ: QualityParser) returns (e: AcceptLanguageEnumerator)
    modifies state
    ensures fresh(e) && e.Valid() && e.index == -1
    ensures e.langs == ListFor(old(state.languages), state.acceptLanguage, parseQ)
    ensures state.languages == Some(e.langs) && state.language == old(state.language)
  {
    var list := GetAcceptLanguageList(state, parseQ);
    e := new AcceptLanguageEnumerator(list);
  }

  /** A client calling `next()` n times on a fresh enumerator: the k-th call
      is true exactly while pairs are left, and the pairs seen are the list's
      prefix in order. */
  method Enumerate(e: AcceptLanguageEnumerator, n: nat) returns (results: seq<bool>, seen: seq<LangQuality>)
    requires e.Valid() && e.index == -1
    modifies e
    ensures |results| == n
    ensures forall k :: 0 <= k < n ==> results[k] == (k < |e.langs|)
    ensures seen == e.langs[..if n < |e.langs| then n else |e.langs|]
  {
    results := [];
    seen := [];
    var k := 0;
    while k < n
      invariant 0 <= k <= n
      invariant e.Valid() && e.index == k - 1
      invariant |results| == k
      invariant forall k' :: 0 <= k' < k ==> results[k'] == (k' < |e.langs|)
      invariant seen == e.langs[..if k < |e.langs| then k else |e.langs|]
    {
      var more := e.Next();
      if more {
        assert e.langs[..k + 1] == e.langs[..k] + [e.langs[k]];
        seen := seen + [LangQuality(e.currentLanguage, e.currentQuality)];
      }
      results := results + [more];
      k := k + 1;
    }
  }
}
