/**
  The payment-command pattern `/send\s*@(\w+)\s*\$?([\d.]+)/i`, matched the way a
  JavaScript regular-expression engine matches it.

  A match is described by a `Span`: where it starts and how many characters each
  quantified part of the pattern consumed. `IsMatch` says when a span is a match at
  all; `Outranks` is the order in which the engine's backtracking tries the spans that
  start at one position (every quantifier is greedy, so larger counts, taken from the
  left of the pattern, come first). The engine returns the match with the least start
  and, at that start, the one it tries first. The functions `TryAmount` to `Exec`
  are the backtracking search itself, one function per quantifier, and each is proved
  to return exactly that match.
*/
module CommandPattern {
  import opened Wrappers

  // ---------------------------------------------------------------------------
  // Characters

  predicate IsDigit(c: char) { '0' <= c <= '9' }

  predicate IsUpper(c: char) { 'A' <= c <= 'Z' }

  /** `\w` without the unicode flag: ASCII letters, digits and the underscore. */
  predicate IsWordChar(c: char) { 'a' <= c <= 'z' || IsUpper(c) || IsDigit(c) || c == '_' }

  /** `\s`: the ECMAScript WhiteSpace and LineTerminator characters. */
  predicate IsSpaceChar(c: char) {
    || c == '\t' || c == '\n' || c == '\U{000B}' || c == '\U{000C}' || c == '\r' || c == ' '
    || c == '\U{00A0}' || c == '\U{1680}' || ('\U{2000}' <= c <= '\U{200A}')
    || c == '\U{2028}' || c == '\U{2029}' || c == '\U{202F}' || c == '\U{205F}'
    || c == '\U{3000}' || c == '\U{FEFF}'
  }

  /** `[\d.]`: a digit or a dot. */
  predicate IsAmountChar(c: char) { IsDigit(c) || c == '.' }

  /** The three character classes that the pattern repeats. */
  datatype Class = Space | Word | AmountChar

  predicate InClass(cls: Class, c: char) {
    match cls
    case Space => IsSpaceChar(c)
    case Word => IsWordChar(c)
    case AmountChar => IsAmountChar(c)
  }

  /** Case-insensitive comparison of a text character with a lower-case pattern letter. */
  predicate SameLetter(c: char, letter: char)
    requires 'a' <= letter <= 'z'
  {
    c == letter || c as int == letter as int - 32
  }

  function LowerChar(c: char): char {
    if IsUpper(c) then (c as int + 32) as char else c
  }

  /** `String.prototype.toLowerCase`, restricted to the ASCII letters. */
  function Lower(s: string): (r: string)
    ensures |r| == |s|
    ensures forall k :: 0 <= k < |s| && IsUpper(s[k]) ==> 'a' <= r[k] <= 'z' && r[k] as int == s[k] as int + 32
    ensures forall k :: 0 <= k < |s| && !IsUpper(s[k]) ==> r[k] == s[k]
  {
    seq(|s|, k requires 0 <= k < |s| => LowerChar(s[k]))
  }

  // ---------------------------------------------------------------------------
  // Runs of characters of one class

  /** The `n` characters from position `p` exist and all belong to `cls`. */
  predicate AllIn(t: string, p: nat, n: nat, cls: Class) {
    p + n <= |t| && forall k {:trigger InClass(cls, t[k])} :: p <= k < p + n ==> InClass(cls, t[k])
  }

  /** The length of the longest run of `cls` characters starting at position `p`. */
  function Run(t: string, p: nat, cls: Class): (n: nat)
    requires p <= |t|
    ensures AllIn(t, p, n, cls)
    ensures p + n < |t| ==> !InClass(cls, t[p + n])
    decreases |t| - p
  {
    if p < |t| && InClass(cls, t[p]) then
      var rest := Run(t, p + 1, cls);
      assert forall k :: p < k < p + 1 + rest ==> InClass(cls, t[k]);
      1 + rest
    else 0
  }

  /** No run of `cls` characters from `p` is longer than `Run`. */
  lemma RunIsLongest(t: string, p: nat, cls: Class)
    requires p <= |t|
    ensures forall n: nat :: AllIn(t, p, n, cls) ==> n <= Run(t, p, cls)
  {
    var r := Run(t, p, cls);
    forall n: nat | AllIn(t, p, n, cls) ensures n <= r {
    }
  }

  // ---------------------------------------------------------------------------
  // Matches and the order in which the engine tries them

  /**
    A candidate match: its start, the number of spaces before `@`, the length of the
    handle (group 1), the number of spaces after it, whether the optional `$` was
    taken, and the length of the amount (group 2).
  */
  datatype Span = Span(start: nat, ws1: nat, hlen: nat, ws2: nat, dollar: bool, alen: nat)

  function HandleStart(sp: Span): nat { sp.start + 5 + sp.ws1 }

  function HandleEnd(sp: Span): nat { HandleStart(sp) + sp.hlen }

  function AmountStart(sp: Span): nat { HandleEnd(sp) + sp.ws2 + (if sp.dollar then 1 else 0) }

  function AmountEnd(sp: Span): nat { AmountStart(sp) + sp.alen }

  /** `send` (in either case) at position `i`. */
  predicate SendAt(t: string, i: nat) {
    && i + 4 <= |t|
    && SameLetter(t[i], 's') && SameLetter(t[i + 1], 'e')
    && SameLetter(t[i + 2], 'n') && SameLetter(t[i + 3], 'd')
  }

  /** ... followed by `w1` spaces and `@`. */
  predicate AtSignAt(t: string, i: nat, w1: nat) {
    SendAt(t, i) && AllIn(t, i + 4, w1, Space) && i + 4 + w1 < |t| && t[i + 4 + w1] == '@'
  }

  /** ... followed by a handle of `h >= 1` word characters. */
  predicate HandleAt(t: string, i: nat, w1: nat, h: nat) {
    AtSignAt(t, i, w1) && 1 <= h && AllIn(t, i + 5 + w1, h, Word)
  }

  /** ... followed by `w2` spaces. */
  predicate GapAt(t: string, i: nat, w1: nat, h: nat, w2: nat) {
    HandleAt(t, i, w1, h) && AllIn(t, i + 5 + w1 + h, w2, Space)
  }

  /** ... followed by `$` when `d` holds. */
  predicate DollarAt(t: string, i: nat, w1: nat, h: nat, w2: nat, d: bool) {
    && GapAt(t, i, w1, h, w2)
    && (d ==> i + 5 + w1 + h + w2 < |t| && t[i + 5 + w1 + h + w2] == '$')
  }

  /** The span is a match of the whole pattern in `t`. */
  predicate IsMatch(t: string, sp: Span) {
    && DollarAt(t, sp.start, sp.ws1, sp.hlen, sp.ws2, sp.dollar)
    && 1 <= sp.alen && AllIn(t, AmountStart(sp), sp.alen, AmountChar)
  }

  /**
    The backtracking engine tries `a` no later than `b` (both starting at one
    position): every quantifier is greedy, so the counts are compared from the left
    of the pattern, larger first, and the optional `$` is tried taken first.
  */
  predicate Outranks(a: Span, b: Span) {
    || a.ws1 > b.ws1
    || (a.ws1 == b.ws1 && a.hlen > b.hlen)
    || (a.ws1 == b.ws1 && a.hlen == b.hlen && a.ws2 > b.ws2)
    || (a.ws1 == b.ws1 && a.hlen == b.hlen && a.ws2 == b.ws2 && a.dollar && !b.dollar)
    || (a.ws1 == b.ws1 && a.hlen == b.hlen && a.ws2 == b.ws2 && a.dollar == b.dollar && a.alen >= b.alen)
  }

  // ---------------------------------------------------------------------------
  // The backtracking search, innermost quantifier first

  /** `([\d.]+)` after a fixed prefix: greedy, and nothing follows it, so the longest run. */
  function TryAmount(t: string, i: nat, w1: nat, h: nat, w2: nat, d: bool): (r: Option<Span>)
    requires DollarAt(t, i, w1, h, w2, d)
    ensures r.Some? ==> IsMatch(t, r.value)
    ensures r.Some? ==> r.value.start == i && r.value.ws1 == w1 && r.value.hlen == h && r.value.ws2 == w2 && r.value.dollar == d
    ensures forall sp :: IsMatch(t, sp) && sp.start == i && sp.ws1 == w1 && sp.hlen == h && sp.ws2 == w2 && sp.dollar == d ==>
                           r.Some? && Outranks(r.value, sp)
  {
    var a0 := i + 5 + w1 + h + w2 + (if d then 1 else 0);
    var n := Run(t, a0, AmountChar);
    RunIsLongest(t, a0, AmountChar);
    if n >= 1 then Some(Span(i, w1, h, w2, d, n)) else None
  }

  /** `\$?` after a fixed prefix: greedy, so the `$` is tried taken first. */
  function TryDollar(t: string, i: nat, w1: nat, h: nat, w2: nat): (r: Option<Span>)
    requires GapAt(t, i, w1, h, w2)
    ensures r.Some? ==> IsMatch(t, r.value)
    ensures r.Some? ==> r.value.start == i && r.value.ws1 == w1 && r.value.hlen == h && r.value.ws2 == w2
    ensures forall sp :: IsMatch(t, sp) && sp.start == i && sp.ws1 == w1 && sp.hlen == h && sp.ws2 == w2 ==>
                           r.Some? && Outranks(r.value, sp)
  {
    var g := i + 5 + w1 + h + w2;
    if g < |t| && t[g] == '$' then
      var taken := TryAmount(t, i, w1, h, w2, true);
      if taken.Some? then taken else TryAmount(t, i, w1, h, w2, false)
    else
      TryAmount(t, i, w1, h, w2, false)
  }

  /** `\s*` after the handle: greedy, so `w2` spaces first, then fewer. */
  function TryGap(t: string, i: nat, w1: nat, h: nat, w2: nat): (r: Option<Span>)
    requires GapAt(t, i, w1, h, w2)
    ensures r.Some? ==> IsMatch(t, r.value)
    ensures r.Some? ==> r.value.start == i && r.value.ws1 == w1 && r.value.hlen == h && r.value.ws2 <= w2
    ensures forall sp :: IsMatch(t, sp) && sp.start == i && sp.ws1 == w1 && sp.hlen == h && sp.ws2 <= w2 ==>
                           r.Some? && Outranks(r.value, sp)
    decreases w2
  {
    var here := TryDollar(t, i, w1, h, w2);
    if here.Some? then here
    else if w2 == 0 then None
    else TryGap(t, i, w1, h, w2 - 1)
  }

  /** `(\w+)`: greedy, so the handle is tried `h` characters long first, then shorter. */
  function TryHandle(t: string, i: nat, w1: nat, h: nat): (r: Option<Span>)
    requires AtSignAt(t, i, w1) && AllIn(t, i + 5 + w1, h, Word)
    ensures r.Some? ==> IsMatch(t, r.value)
    ensures r.Some? ==> r.value.start == i && r.value.ws1 == w1 && r.value.hlen <= h
    ensures forall sp :: IsMatch(t, sp) && sp.start == i && sp.ws1 == w1 && sp.hlen <= h ==>
                           r.Some? && Outranks(r.value, sp)
    decreases h
  {
    if h == 0 then None
    else
      var e := i + 5 + w1 + h;
      var w2 := Run(t, e, Space);
      RunIsLongest(t, e, Space);
      var here := TryGap(t, i, w1, h, w2);
      if here.Some? then here else TryHandle(t, i, w1, h - 1)
  }

  /** `@` after `send` and `w1` spaces, then the handle tried from its longest. */
  function TryAtSign(t: string, i: nat, w1: nat): (r: Option<Span>)
    requires SendAt(t, i) && AllIn(t, i + 4, w1, Space)
    ensures r.Some? ==> IsMatch(t, r.value)
    ensures r.Some? ==> r.value.start == i && r.value.ws1 == w1
    ensures forall sp :: IsMatch(t, sp) && sp.start == i && sp.ws1 == w1 ==>
                           r.Some? && Outranks(r.value, sp)
  {
    var p := i + 4 + w1;
    if p < |t| && t[p] == '@' then
      var h := Run(t, p + 1, Word);
      RunIsLongest(t, p + 1, Word);
      TryHandle(t, i, w1, h)
    else None
  }

  /** `\s*` between `send` and `@`: greedy, so `w1` spaces first, then fewer. */
  function TryLead(t: string, i: nat, w1: nat): (r: Option<Span>)
    requires SendAt(t, i) && AllIn(t, i + 4, w1, Space)
    ensures r.Some? ==> IsMatch(t, r.value)
    ensures r.Some? ==> r.value.start == i && r.value.ws1 <= w1
    ensures forall sp :: IsMatch(t, sp) && sp.start == i && sp.ws1 <= w1 ==>
                           r.Some? && Outranks(r.value, sp)
    decreases w1
  {
    var here := TryAtSign(t, i, w1);
    if here.Some? then here
    else if w1 == 0 then None
    else TryLead(t, i, w1 - 1)
  }

  /** The first match the engine finds when it starts at position `i`. */
  function MatchAt(t: string, i: nat): (r: Option<Span>)
    ensures r.Some? ==> IsMatch(t, r.value) && r.value.start == i
    ensures forall sp :: IsMatch(t, sp) && sp.start == i ==> r.Some? && Outranks(r.value, sp)
  {
    if SendAt(t, i) then
      var w1 := Run(t, i + 4, Space);
      RunIsLongest(t, i + 4, Space);
      TryLead(t, i, w1)
    else None
  }

  /**
    `String.prototype.match` with a non-global pattern: try the start positions from
    `i` upwards and return the first match found.
  */
  function Exec(t: string, i: nat): (r: Option<Span>)
    ensures r.Some? ==> IsMatch(t, r.value) && i <= r.value.start
    ensures r.Some? ==> forall sp :: IsMatch(t, sp) && i <= sp.start ==>
                          r.value.start < sp.start || (r.value.start == sp.start && Outranks(r.value, sp))
    ensures r.None? ==> forall sp :: IsMatch(t, sp) ==> sp.start < i
    decreases |t| - i
  {
    if i >= |t| then None
    else
      var here := MatchAt(t, i);
      if here.Some? then here else Exec(t, i + 1)
  }

  // ---------------------------------------------------------------------------
  // The parsed command

  /** The two capture groups: the recipient handle and the amount as written. */
  datatype Command = Command(handle: string, amount: string)

  /** Lower-case the text, run the pattern, and read the two groups off the match. */
  function ParseCommand(text: string): (r: Option<Command>)
    ensures r.Some? <==> exists sp :: IsMatch(Lower(text), sp)
    ensures r.Some? ==> 1 <= |r.value.handle| && 1 <= |r.value.amount|
    ensures r.Some? ==> forall k :: 0 <= k < |r.value.handle| ==>
                          var c := r.value.handle[k]; 'a' <= c <= 'z' || IsDigit(c) || c == '_'
    ensures r.Some? ==> forall k :: 0 <= k < |r.value.amount| ==> IsAmountChar(r.value.amount[k])
  {
    var t := Lower(text);
    match Exec(t, 0)
    case None => None
    case Some(sp) =>
      MatchGroups(text, sp);
      Some(Command(t[HandleStart(sp)..HandleEnd(sp)], t[AmountStart(sp)..AmountEnd(sp)]))
  }

  /** The two groups of a match in a lower-cased text are lower-case handles and amounts. */
  lemma MatchGroups(text: string, sp: Span)
    requires IsMatch(Lower(text), sp)
    ensures HandleEnd(sp) <= AmountStart(sp) <= AmountEnd(sp) <= |text|
    ensures forall k :: HandleStart(sp) <= k < HandleEnd(sp) ==>
              var c := Lower(text)[k]; 'a' <= c <= 'z' || IsDigit(c) || c == '_'
    ensures forall k :: AmountStart(sp) <= k < AmountEnd(sp) ==> IsAmountChar(Lower(text)[k])
  {
    var t := Lower(text);
    forall k | HandleStart(sp) <= k < HandleEnd(sp)
      ensures 'a' <= t[k] <= 'z' || IsDigit(t[k]) || t[k] == '_'
    {
      assert InClass(Word, t[k]);
      assert !IsUpper(t[k]);
    }
    forall k | AmountStart(sp) <= k < AmountEnd(sp)
      ensures IsAmountChar(t[k])
    {
      assert InClass(AmountChar, t[k]);
    }
  }

  // ---------------------------------------------------------------------------
  // What greedy backtracking means for the two groups

  /** The match that the engine returns among those starting where `sp` starts. */
  ghost predicate FirstAt(t: string, sp: Span) {
    IsMatch(t, sp) && forall other :: IsMatch(t, other) && other.start == sp.start ==> Outranks(sp, other)
  }

  /** From position `q`: spaces, an optional `$`, then a digit or a dot. */
  predicate AmountFollows(t: string, q: nat)
    requires q <= |t|
  {
    var g := q + Run(t, q, Space);
    || (g < |t| && IsAmountChar(t[g]))
    || (g + 1 < |t| && t[g] == '$' && IsAmountChar(t[g + 1]))
  }

  /** A match whose handle is the whole run `w`, followed by spaces and the amount at `g`. */
  lemma WholeRunMatch(t: string, sp: Span, w: nat, g: nat, d: bool)
    requires IsMatch(t, sp) && 1 <= w && AllIn(t, HandleStart(sp), w, Word)
    requires HandleStart(sp) + w <= g && AllIn(t, HandleStart(sp) + w, g - HandleStart(sp) - w, Space)
    requires d ==> g < |t| && t[g] == '$'
    requires var a := g + (if d then 1 else 0); a < |t| && IsAmountChar(t[a])
    ensures IsMatch(t, Span(sp.start, sp.ws1, w, g - HandleStart(sp) - w, d, 1))
  {
  }

  /** The whole run wins when spaces and then an amount character follow it. */
  lemma WholeRunBeforeAmount(t: string, sp: Span)
    requires FirstAt(t, sp)
    requires var q := HandleStart(sp) + Run(t, HandleStart(sp), Word);
      var g := q + Run(t, q, Space);
      g < |t| && IsAmountChar(t[g])
    ensures sp.hlen == Run(t, HandleStart(sp), Word)
  {
    var h0 := HandleStart(sp);
    var w := Run(t, h0, Word);
    RunIsLongest(t, h0, Word);
    var q := h0 + w;
    WholeRunMatch(t, sp, w, q + Run(t, q, Space), false);
  }

  /** The whole run wins when spaces, `$` and then an amount character follow it. */
  lemma WholeRunBeforeDollar(t: string, sp: Span)
    requires FirstAt(t, sp)
    requires var q := HandleStart(sp) + Run(t, HandleStart(sp), Word);
      var g := q + Run(t, q, Space);
      g + 1 < |t| && t[g] == '$' && IsAmountChar(t[g + 1])
    ensures sp.hlen == Run(t, HandleStart(sp), Word)
  {
    var h0 := HandleStart(sp);
    var w := Run(t, h0, Word);
    RunIsLongest(t, h0, Word);
    var q := h0 + w;
    WholeRunMatch(t, sp, w, q + Run(t, q, Space), true);
  }

  /** When an amount can follow the whole run of word characters, the handle is that run. */
  lemma WholeRunWhenAmountFollows(t: string, sp: Span)
    requires FirstAt(t, sp)
    ensures HandleStart(sp) + Run(t, HandleStart(sp), Word) <= |t|
    ensures AmountFollows(t, HandleStart(sp) + Run(t, HandleStart(sp), Word)) ==>
              sp.hlen == Run(t, HandleStart(sp), Word)
  {
    var q := HandleStart(sp) + Run(t, HandleStart(sp), Word);
    if AmountFollows(t, q) {
      var g := q + Run(t, q, Space);
      if g < |t| && IsAmountChar(t[g]) {
        WholeRunBeforeAmount(t, sp);
      } else {
        WholeRunBeforeDollar(t, sp);
      }
    }
  }

  /** A handle cut short of its run gives up a digit, which starts the amount at once. */
  lemma CutHandleEndsBeforeDigit(t: string, sp: Span)
    requires FirstAt(t, sp)
    ensures HandleStart(sp) <= |t|
    ensures sp.hlen <= Run(t, HandleStart(sp), Word)
    ensures sp.hlen < Run(t, HandleStart(sp), Word) ==>
              IsDigit(t[HandleEnd(sp)]) && sp.ws2 == 0 && !sp.dollar
  {
    var h0 := HandleStart(sp);
    var e := HandleEnd(sp);
    RunIsLongest(t, h0, Word);
    if sp.hlen < Run(t, h0, Word) {
      assert InClass(Word, t[e]);
      assert sp.ws2 > 0 ==> InClass(Space, t[e]);
      assert sp.ws2 == 0 && !sp.dollar ==> InClass(AmountChar, t[e]);
    }
  }

  /** No digit in the rest of the run could have started the amount later. */
  lemma NoLaterDigitInRun(t: string, sp: Span)
    requires FirstAt(t, sp)
    ensures HandleStart(sp) <= |t|
    ensures forall k :: HandleEnd(sp) < k < HandleStart(sp) + Run(t, HandleStart(sp), Word) ==> !IsDigit(t[k])
  {
    var h0 := HandleStart(sp);
    var w := Run(t, h0, Word);
    forall k | HandleEnd(sp) < k < h0 + w
      ensures !IsDigit(t[k])
    {
      var later := Span(sp.start, sp.ws1, k - h0, 0, false, Run(t, k, AmountChar));
      assert IsDigit(t[k]) ==> IsMatch(t, later);
    }
  }

  // ---------------------------------------------------------------------------
  // Which match is reported

  /** The match `String.prototype.match` reports: the earliest start, and there the first one tried. */
  ghost predicate Reported(t: string, sp: Span) {
    FirstAt(t, sp) && forall other :: IsMatch(t, other) ==> sp.start <= other.start
  }

  /** Two matches at one start that each outrank the other are the same match. */
  lemma OutranksIsAntisymmetric(a: Span, b: Span)
    requires a.start == b.start && Outranks(a, b) && Outranks(b, a)
    ensures a == b
  {
  }

  /** At most one match is reported. */
  lemma ReportedIsUnique(t: string, a: Span, b: Span)
    requires Reported(t, a) && Reported(t, b)
    ensures a == b
  {
    assert a.start == b.start;
    OutranksIsAntisymmetric(a, b);
  }

  /** The parsed command holds the two groups of the reported match. */
  lemma ParseCommandReadsReportedMatch(text: string, sp: Span)
    requires Reported(Lower(text), sp)
    ensures AmountEnd(sp) <= |text|
    ensures ParseCommand(text) ==
              Some(Command(Lower(text)[HandleStart(sp)..HandleEnd(sp)], Lower(text)[AmountStart(sp)..AmountEnd(sp)]))
  {
    var t := Lower(text);
    MatchGroups(text, sp);
    var r := Exec(t, 0);
    assert r.Some?;
    assert Reported(t, r.value);
    ReportedIsUnique(t, r.value, sp);
  }

  /** Whenever the pattern matches somewhere, some match is the reported one. */
  lemma SomeMatchIsReported(t: string, sp: Span)
    requires IsMatch(t, sp)
    ensures exists r :: Reported(t, r)
  {
    var r := Exec(t, 0);
    assert r.Some?;
    assert Reported(t, r.value);
  }
}
