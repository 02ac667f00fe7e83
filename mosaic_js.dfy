/**
 * Utilities of the Mosaic script namespace: automatic initialisation of a
 * container, number grouping and relative time.
 */
module MosaicScript {
  import opened Strings

  // ---------------------------------------------------------------------------
  // Mosaic.formatNumber: num.toString() with every match of
  // /\B(?=(\d{3})+(?!\d))/g replaced by a comma.
  // ---------------------------------------------------------------------------

  /** \w of a JavaScript regular expression. */
  predicate WordChar(c: char) {
    'a' <= c <= 'z' || 'A' <= c <= 'Z' || IsDigit(c) || c == '_'
  }

  /**
   * The pattern matches the empty string at position i: i is not a word
   * boundary (\B), and the digits from i on form a non-empty run whose length
   * is a multiple of three and which no further digit follows.
   */
  predicate GroupBreak(s: string, i: nat)
    requires i <= |s|
  {
    var before := i > 0 && WordChar(s[i - 1]);
    var after := i < |s| && WordChar(s[i]);
    var run := DigitRun(s[i..]);
    before == after && run > 0 && run % 3 == 0
  }

  /** The replacement from position i on: a comma at every match, every character kept. */
  function CommasFrom(s: string, i: nat): string
    requires i <= |s|
    decreases |s| - i
  {
    if i == |s| then ""
    else (if GroupBreak(s, i) then "," else "") + [s[i]] + CommasFrom(s, i + 1)
  }

  /** The regular-expression replacement on a whole text. */
  function GroupText(s: string): string {
    CommasFrom(s, 0)
  }

  /** Mosaic.formatNumber on an integer. */
  function FormatNumber(n: int): string {
    GroupText(IntToString(n))
  }

  /** Digits split into groups of three from the right; the first group holds the rest. */
  function Groups(s: string): seq<string>
    decreases |s|
  {
    if |s| <= 3 then [s] else Groups(s[..|s| - 3]) + [s[|s| - 3..]]
  }

  lemma {:induction false} JoinSnoc(xs: seq<string>, x: string, sep: string)
    requires |xs| >= 1
    ensures Join(xs + [x], sep) == Join(xs, sep) + sep + x
    decreases |xs|
  {
    if |xs| == 1 {
      assert xs + [x] == [xs[0], x];
      assert Join([x], sep) == x;
    } else {
      assert xs + [x] == [xs[0]] + (xs[1..] + [x]);
      JoinCons(xs[0], xs[1..] + [x], sep);
      JoinSnoc(xs[1..], x, sep);
      JoinCons(xs[0], xs[1..], sep);
      assert xs == [xs[0]] + xs[1..];
    }
  }

  /** In a run of digits the pattern matches exactly at the inner positions a multiple of three from the end. */
  lemma BreakInDigits(s: string, i: nat)
    requires AllDigits(s) && i <= |s|
    ensures GroupBreak(s, i) <==> 0 < i < |s| && (|s| - i) % 3 == 0
  {
    assert AllDigits(s[i..]);
    DigitRunAll(s[i..]);
  }

  /** Fewer than three digits from the end, or a start of at most three digits: nothing to insert. */
  lemma {:induction false} NoBreakFrom(s: string, j: nat)
    requires AllDigits(s) && j <= |s| && |s| - j <= 3
    requires j == 0 || |s| - j < 3
    ensures CommasFrom(s, j) == s[j..]
    decreases |s| - j
  {
    if j < |s| {
      BreakInDigits(s, j);
      NoBreakFrom(s, j + 1);
      assert s[j..] == [s[j]] + s[j + 1..];
    }
  }

  /** Appending three digits adds one comma and the new group at the end. */
  lemma {:induction false} CommasSnoc(p: string, q: string, i: nat)
    requires AllDigits(p) && AllDigits(q) && |p| >= 1 && |q| == 3 && i <= |p|
    ensures CommasFrom(p + q, i) == CommasFrom(p, i) + "," + q
    decreases |p| - i
  {
    if i == |p| {
      CommasAtJoint(p, q);
    } else {
      var s := p + q;
      BreakSnoc(p, q, i);
      CommasSnoc(p, q, i + 1);
      var b := if GroupBreak(p, i) then "," else "";
      var rest := CommasFrom(p, i + 1);
      assert CommasFrom(s, i) == b + [p[i]] + (rest + "," + q);
      assert CommasFrom(p, i) == b + [p[i]] + rest;
    }
  }

  lemma CommasAtJoint(p: string, q: string)
    requires AllDigits(p) && AllDigits(q) && |p| >= 1 && |q| == 3
    ensures CommasFrom(p + q, |p|) == "," + q
  {
    var s := p + q;
    assert AllDigits(s);
    BreakInDigits(s, |p|);
    NoBreakFrom(s, |p| + 1);
    assert s[|p| + 1..] == q[1..];
    assert q == [q[0]] + q[1..];
  }

  lemma BreakSnoc(p: string, q: string, i: nat)
    requires AllDigits(p) && AllDigits(q) && |q| == 3 && i < |p|
    ensures GroupBreak(p + q, i) == GroupBreak(p, i) && (p + q)[i] == p[i]
  {
    assert AllDigits(p + q);
    BreakInDigits(p + q, i);
    BreakInDigits(p, i);
  }

  /** On a run of digits the replacement joins the groups of three with commas. */
  lemma {:induction false} GroupTextDigits(s: string)
    requires AllDigits(s) && |s| >= 1
    ensures GroupText(s) == Join(Groups(s), ",")
    decreases |s|
  {
    if |s| <= 3 {
      NoBreakFrom(s, 0);
      assert s[0..] == s;
    } else {
      var p, q := s[..|s| - 3], s[|s| - 3..];
      assert s == p + q;
      assert AllDigits(p) && AllDigits(q);
      CommasSnoc(p, q, 0);
      GroupTextDigits(p);
      GroupsShape(p);
      JoinSnoc(Groups(p), q, ",");
    }
  }

  /**
   * The groups of a non-empty run of digits: the first holds one to three
   * digits, every later one exactly three, and together they spell the run.
   */
  lemma {:induction false} GroupsShape(s: string)
    requires AllDigits(s) && |s| >= 1
    ensures |Groups(s)| >= 1 && 1 <= |Groups(s)[0]| <= 3
    ensures forall k :: 1 <= k < |Groups(s)| ==> |Groups(s)[k]| == 3
    ensures forall g :: g in Groups(s) ==> AllDigits(g)
    ensures Join(Groups(s), "") == s
    decreases |s|
  {
    if |s| > 3 {
      var p, q := s[..|s| - 3], s[|s| - 3..];
      assert AllDigits(p) && AllDigits(q);
      GroupsShape(p);
      JoinSnoc(Groups(p), q, "");
      assert s == p + q;
      assert Groups(s)[0] == Groups(p)[0];
    }
  }

  /**
   * formatNumber on a non-negative integer: the comma-separated pieces are the
   * groups, the first of one to three digits and the rest of three, and deleting
   * the commas gives the plain decimal text back.
   */
  lemma FormatNumberGroups(n: nat)
    ensures var parts := Split(FormatNumber(n), ',');
      && parts == Groups(NatToString(n))
      && 1 <= |parts[0]| <= 3
      && (forall k :: 1 <= k < |parts| ==> |parts[k]| == 3)
      && Join(parts, "") == NatToString(n)
  {
    var s := NatToString(n);
    GroupTextDigits(s);
    GroupsShape(s);
    forall g | g in Groups(s) ensures ',' !in g {
      assert !IsDigit(',');
    }
    SplitJoin(Groups(s), ',');
  }

  /** Below one thousand nothing is inserted. */
  lemma FormatSmall(n: nat)
    requires n < 1000
    ensures FormatNumber(n) == NatToString(n)
  {
    var s := NatToString(n);
    ShortNatText(n);
    GroupTextDigits(s);
  }

  lemma ShortNatText(n: nat)
    requires n < 1000
    ensures |NatToString(n)| <= 3
  {
    if n >= 10 {
      assert |NatToString(n)| == |NatToString(n / 10)| + 1;
      if n / 10 >= 10 {
        assert |NatToString(n / 10)| == |NatToString(n / 10 / 10)| + 1;
        assert n / 10 / 10 < 10;
      }
    }
  }

  /** The minus sign is a non-word character: no comma follows it, and the digits are grouped as for the magnitude. */
  lemma FormatNegative(n: int)
    requires n > 0
    ensures FormatNumber(-n) == "-" + FormatNumber(n)
  {
    var d := NatToString(n);
    var s := "-" + d;
    ShiftByOne(d, 0);
    assert s[1..] == d;
    assert DigitRun(s) == 0;
  }

  lemma {:induction false} ShiftByOne(d: string, i: nat)
    requires i <= |d|
    ensures CommasFrom("-" + d, i + 1) == CommasFrom(d, i)
    decreases |d| - i
  {
    var s := "-" + d;
    if i < |d| {
      assert s[i + 1..] == d[i..];
      assert i > 0 ==> s[i] == d[i - 1];
      assert i == 0 ==> s[i] == '-';
      assert GroupBreak(s, i + 1) == GroupBreak(d, i);
      ShiftByOne(d, i + 1);
    }
  }

  // ---------------------------------------------------------------------------
  // The replacement on a number with a fractional part.
  // ---------------------------------------------------------------------------

  /**
   * As written, the pattern also matches inside the digits after the decimal
   * point: d.dddd (1.2345, say) comes out as d.d,ddd.
   */
  lemma FractionGroupedAsWritten(a: char, b: char, c: char, d: char, e: char)
    requires IsDigit(a) && IsDigit(b) && IsDigit(c) && IsDigit(d) && IsDigit(e)
    ensures GroupText([a, '.', b, c, d, e]) == [a, '.', b, ',', c, d, e]
  {
    var s := [a, '.', b, c, d, e];
    assert CommasFrom(s, 2) == [b, ',', c, d, e] by {
      FractionTail(s);
      assert s[2..] == [b, c, d, e];
      DigitRunAll(s[2..]);
      assert !GroupBreak(s, 2);
    }
    assert CommasFrom(s, 1) == ['.', b, ',', c, d, e] by {
      assert DigitRun(s[1..]) == 0 by { assert s[1..][0] == '.'; }
      assert !GroupBreak(s, 1);
    }
    assert !GroupBreak(s, 0) by { assert !WordChar(s[1]); }
  }

  /** The last three digits get a comma in front, the one before them none. */
  lemma FractionTail(s: string)
    requires |s| == 6 && s[1] == '.' && IsDigit(s[2]) && IsDigit(s[3]) && IsDigit(s[4]) && IsDigit(s[5])
    ensures CommasFrom(s, 3) == [',', s[3], s[4], s[5]]
  {
    assert s[5..] == [s[5]] && s[4..] == [s[4], s[5]] && s[3..] == [s[3], s[4], s[5]];
    DigitRunAll(s[5..]);
    DigitRunAll(s[4..]);
    DigitRunAll(s[3..]);
    assert CommasFrom(s, 6) == [];
    assert !GroupBreak(s, 5);
    assert CommasFrom(s, 5) == [s[5]];
    assert !GroupBreak(s, 4);
    assert CommasFrom(s, 4) == [s[4], s[5]];
    assert GroupBreak(s, 3);
  }

  /** Grouping of the integer part only: the text from the decimal point on is kept as it is. */
  function GroupDecimal(s: string): string {
    var k := IndexOf(s, '.');
    if k < 0 then GroupText(s) else GroupText(s[..k]) + s[k..]
  }

  /** The digits after the point stay ungrouped; the integer part is grouped by threes. */
  lemma GroupDecimalKeepsFraction(w: string, f: string)
    requires AllDigits(w) && |w| >= 1 && AllDigits(f)
    ensures GroupDecimal(w + "." + f) == Join(Groups(w), ",") + "." + f
  {
    var s := w + "." + f;
    PointAt(w, f);
    GroupDecimalAt(s, |w|);
    AroundPoint(w, f);
    GroupTextDigits(w);
  }

  /** The text around the point, and the point onwards regrouped. */
  lemma AroundPoint(w: string, f: string)
    ensures (w + "." + f)[..|w|] == w && (w + "." + f)[|w|..] == "." + f
    ensures forall j: string {:trigger j + "." + f} :: j + "." + f == j + ("." + f)
  {
  }

  lemma GroupDecimalAt(s: string, k: nat)
    requires k < |s| && IndexOf(s, '.') == k
    ensures GroupDecimal(s) == GroupText(s[..k]) + s[k..]
  {
  }

  /** The first decimal point after a run of digits is the one right after it. */
  lemma PointAt(w: string, f: string)
    requires AllDigits(w)
    ensures IndexOf(w + "." + f, '.') == |w|
  {
    var s := w + "." + f;
    var i := IndexOf(s, '.');
    assert s[|w|] == '.';
    assert forall j :: 0 <= j < |w| ==> s[j] == w[j] && s[j] != '.';
    assert s[..|w| + 1] == w + ".";
  }

  /** On integers the corrected grouping and formatNumber agree. */
  lemma GroupDecimalOnIntegers(n: int)
    ensures GroupDecimal(IntToString(n)) == FormatNumber(n)
  {
    var s := IntToString(n);
    assert !IsDigit('.');
    assert '.' !in s;
  }

  // ---------------------------------------------------------------------------
  // Mosaic.formatRelativeTime. The difference between now and the date, in
  // milliseconds, and the locale's date text are parameters.
  // ---------------------------------------------------------------------------

  /** "<n> <unit>[s] ago". */
  function CountText(n: nat, unit: string): string {
    NatToString(n) + " " + unit + (if n > 1 then "s" else "") + " ago"
  }

  /**
   * The relative-time text. Math.floor of a quotient by a positive constant is
   * Dafny's division, which rounds towards minus infinity for such divisors.
   */
  function RelativeTime(diffMs: int, localeDate: string): string {
    var diffSec := diffMs / 1000;
    var diffMin := diffSec / 60;
    var diffHour := diffMin / 60;
    var diffDay := diffHour / 24;
    if diffSec < 60 then "just now"
    else if diffMin < 60 then CountText(diffMin, "minute")
    else if diffHour < 24 then CountText(diffHour, "hour")
    else if diffDay < 30 then CountText(diffDay, "day")
    else localeDate
  }

  /** Under a minute, and any date in the future, reads "just now". */
  lemma JustNow(diffMs: int, localeDate: string)
    requires diffMs < 60000
    ensures RelativeTime(diffMs, localeDate) == "just now"
  {
  }

  /**
   * From one minute to under an hour: whole minutes (1 to 59); from one hour to
   * under a day: whole hours (1 to 23); from one day to under thirty days:
   * whole days (1 to 29); from thirty days on: the locale's date.
   */
  lemma RelativeBuckets(diffMs: int, localeDate: string)
    ensures 60000 <= diffMs < 3600000 ==>
      1 <= diffMs / 60000 < 60 && RelativeTime(diffMs, localeDate) == CountText(diffMs / 60000, "minute")
    ensures 3600000 <= diffMs < 86400000 ==>
      1 <= diffMs / 3600000 < 24 && RelativeTime(diffMs, localeDate) == CountText(diffMs / 3600000, "hour")
    ensures 86400000 <= diffMs < 2592000000 ==>
      1 <= diffMs / 86400000 < 30 && RelativeTime(diffMs, localeDate) == CountText(diffMs / 86400000, "day")
    ensures 2592000000 <= diffMs ==> RelativeTime(diffMs, localeDate) == localeDate
  {
    DivDiv(diffMs, 1000, 60);
    DivDiv(diffMs, 60000, 60);
    DivDiv(diffMs, 3600000, 24);
  }

  /** Floor division twice is floor division by the product. */
  lemma DivDiv(x: int, a: int, b: int)
    requires a > 0 && b > 0
    ensures x / a / b == x / (a * b)
  {
    var q, r := x / a, x % a;
    var q2, r2 := q / b, q % b;
    assert x == a * q + r;
    assert q == b * q2 + r2;
    assert x == (a * b) * q2 + (a * r2 + r) by {
      assert a * q == a * (b * q2) + a * r2;
      assert a * (b * q2) == (a * b) * q2;
    }
    MulBelow(a, r2, b);
    DivUnique(x, a * b, q2, a * r2 + r);
  }

  lemma MulBelow(a: int, r: int, b: int)
    requires a > 0 && 0 <= r < b
    ensures 0 <= a * r <= a * b - a
  {
    assert a * r <= a * (b - 1);
    assert a * (b - 1) == a * b - a;
  }

  lemma DivUnique(x: int, d: int, q: int, r: int)
    requires d > 0 && x == d * q + r && 0 <= r < d
    ensures x / d == q
  {
    var q0, r0 := x / d, x % d;
    var k := q0 - q;
    assert d * k == r - r0 by {
      assert d * q0 + r0 == d * q + r;
      assert d * k == d * q0 - d * q;
    }
    if k >= 1 {
      MulAtLeast(d, k);
    } else if k <= -1 {
      MulAtLeast(d, -k);
    }
  }

  lemma MulAtLeast(d: int, k: int)
    requires d > 0 && k >= 1
    ensures d * k >= d
  {
    assert d * k == d * (k - 1) + d;
    assert d * (k - 1) >= 0;
  }

  /** The unit takes the plural 's' exactly when the count is not one, and the count is printed first. */
  lemma CountPlural(n: nat, unit: string)
    requires n >= 1
    ensures CountText(n, unit) == NatToString(n) + " " + unit + " ago" <==> n == 1
    ensures CountText(n, unit)[..|NatToString(n)|] == NatToString(n)
  {
    if n > 1 {
      var c := CountText(n, unit);
      var k := |NatToString(n)| + 1 + |unit|;
      assert c[k] == 's';
      assert (NatToString(n) + " " + unit + " ago")[k] == ' ';
    }
  }

  // ---------------------------------------------------------------------------
  // Mosaic.init on a container.
  // ---------------------------------------------------------------------------

  /** Indices below n of the elements that match and are not marked initialised, in document order. */
  function Pending(matches: seq<bool>, marked: seq<bool>, n: nat): seq<nat>
    requires n <= |matches| && n <= |marked|
    decreases n
  {
    if n == 0 then []
    else Pending(matches, marked, n - 1) + (if matches[n - 1] && !marked[n - 1] then [n - 1] else [])
  }

  /** The initialised flags after marking every matching element below n. */
  function MarkedUpTo(marked: seq<bool>, matches: seq<bool>, n: nat): (r: seq<bool>)
    requires |matches| == |marked| && n <= |marked|
    ensures |r| == |marked|
  {
    seq(|marked|, j requires 0 <= j < |marked| => marked[j] || (j < n && matches[j]))
  }

  function MarkAll(marked: seq<bool>, matches: seq<bool>): (r: seq<bool>)
    requires |matches| == |marked|
    ensures |r| == |marked|
  {
    MarkedUpTo(marked, matches, |marked|)
  }

  /** Exactly the matching elements not yet marked are pending. */
  lemma {:induction false} PendingMembers(matches: seq<bool>, marked: seq<bool>, n: nat, j: nat)
    requires n <= |matches| && n <= |marked|
    ensures j in Pending(matches, marked, n) <==> j < n && matches[j] && !marked[j]
    decreases n
  {
    if n > 0 {
      PendingMembers(matches, marked, n - 1, j);
    }
  }

  /** Once every matching element is marked, nothing is pending. */
  lemma {:induction false} NothingPending(matches: seq<bool>, marked: seq<bool>, n: nat)
    requires |matches| == |marked| && n <= |marked|
    requires forall j :: 0 <= j < |marked| && matches[j] ==> marked[j]
    ensures Pending(matches, marked, n) == []
    decreases n
  {
    if n > 0 {
      NothingPending(matches, marked, n - 1);
    }
  }

  /**
   * A page as Mosaic.init sees the container: for each element under it, in
   * document order, whether it carries data-mosaic-tabs, whether it carries
   * data-mosaic-filter, and its data-mosaic-initialized flag (one flag shared by
   * both kinds). The started sequences record the elements Mosaic.tabs and
   * Mosaic.filter were called for.
   */
  class Page {
    var tabs: seq<bool>
    var filters: seq<bool>
    var initialized: seq<bool>
    var tabsStarted: seq<nat>
    var filtersStarted: seq<nat>

    predicate Valid()
      reads this
    {
      |tabs| == |initialized| && |filters| == |initialized|
    }

    constructor(tabs: seq<bool>, filters: seq<bool>, initialized: seq<bool>)
      requires |tabs| == |initialized| && |filters| == |initialized|
      ensures Valid()
      ensures this.tabs == tabs && this.filters == filters && this.initialized == initialized
      ensures tabsStarted == [] && filtersStarted == []
    {
      this.tabs := tabs;
      this.filters := filters;
      this.initialized := initialized;
      tabsStarted := [];
      filtersStarted := [];
    }

    /** One forEach pass: start each matching unmarked element in order and mark it. */
    method StartPass(matches: seq<bool>) returns (started: seq<nat>)
      requires Valid() && |matches| == |initialized|
      modifies this
      ensures Valid() && tabs == old(tabs) && filters == old(filters)
      ensures tabsStarted == old(tabsStarted) && filtersStarted == old(filtersStarted)
      ensures started == Pending(matches, old(initialized), |matches|)
      ensures initialized == MarkAll(old(initialized), matches)
    {
      ghost var init0 := initialized;
      started := [];
      var i := 0;
      while i < |matches|
        invariant 0 <= i <= |matches| && |initialized| == |init0|
        invariant initialized == MarkedUpTo(init0, matches, i)
        invariant started == Pending(matches, init0, i)
        invariant tabs == old(tabs) && filters == old(filters)
        invariant tabsStarted == old(tabsStarted) && filtersStarted == old(filtersStarted)
      {
        if matches[i] && !initialized[i] {
          started := started + [i];
          initialized := initialized[i := true];
        }
        i := i + 1;
      }
    }

    /**
     * Mosaic.init: nothing when the container is not found; otherwise the tabs
     * pass and then the filter pass, each skipping elements already marked.
     */
    method Init(rootFound: bool)
      requires Valid()
      modifies this
      ensures Valid() && tabs == old(tabs) && filters == old(filters)
      ensures !rootFound ==>
        && initialized == old(initialized)
        && tabsStarted == old(tabsStarted) && filtersStarted == old(filtersStarted)
      ensures rootFound ==>
        && tabsStarted == old(tabsStarted) + Pending(tabs, old(initialized), |tabs|)
        && filtersStarted == old(filtersStarted) + Pending(filters, MarkAll(old(initialized), tabs), |filters|)
        && initialized == MarkAll(MarkAll(old(initialized), tabs), filters)
    {
      if !rootFound {
        return;
      }
      var t := StartPass(tabs);
      tabsStarted := tabsStarted + t;
      var f := StartPass(filters);
      filtersStarted := filtersStarted + f;
    }
  }

  /**
   * A second Mosaic.init on the same container starts nothing and changes no
   * flag; an element carrying both attributes is started by the tabs pass only.
   */
  lemma InitIdempotent(tabs: seq<bool>, filters: seq<bool>, marked: seq<bool>)
    requires |tabs| == |marked| && |filters| == |marked|
    ensures var after := MarkAll(MarkAll(marked, tabs), filters);
      && Pending(tabs, after, |tabs|) == []
      && Pending(filters, MarkAll(after, tabs), |filters|) == []
      && MarkAll(MarkAll(after, tabs), filters) == after
    ensures forall j :: 0 <= j < |marked| && tabs[j] ==> j !in Pending(filters, MarkAll(marked, tabs), |filters|)
  {
    var after := MarkAll(MarkAll(marked, tabs), filters);
    NothingPending(tabs, after, |tabs|);
    assert MarkAll(after, tabs) == after;
    NothingPending(filters, after, |filters|);
    forall j | 0 <= j < |marked| && tabs[j]
      ensures j !in Pending(filters, MarkAll(marked, tabs), |filters|)
    {
      PendingMembers(filters, MarkAll(marked, tabs), |filters|, j);
    }
  }
}
