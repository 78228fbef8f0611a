/**
  Concrete mentions run through the parser, one backtracking step per lemma, and a
  general consequence of the pattern: a text without a digit or a dot holds no command.
*/
module CommandExamples {
  import opened Wrappers
  import opened CommandPattern

  /** Reading the groups off the match `Exec` finds from the first position. */
  lemma ReadGroups(text: string, sp: Span, c: Command)
    requires Exec(Lower(text), 0) == Some(sp)
    requires c == Command(Lower(text)[HandleStart(sp)..HandleEnd(sp)], Lower(text)[AmountStart(sp)..AmountEnd(sp)])
    ensures ParseCommand(text) == Some(c)
  {
  }

  /** The amount group starts at a digit or a dot of the original text. */
  lemma MatchHasAmountChar(text: string, sp: Span)
    requires IsMatch(Lower(text), sp)
    ensures AmountStart(sp) < |text| && IsAmountChar(text[AmountStart(sp)])
  {
    assert InClass(AmountChar, Lower(text)[AmountStart(sp)]);
  }

  /** A command needs a digit or a dot somewhere in the text. */
  lemma CommandNeedsAmountChar(text: string)
    ensures ParseCommand(text).Some? ==> exists k :: 0 <= k < |text| && IsAmountChar(text[k])
  {
    if ParseCommand(text).Some? {
      var sp :| IsMatch(Lower(text), sp);
      MatchHasAmountChar(text, sp);
    }
  }

  /** `"send @bob"` names no amount, so it is not a command. */
  lemma ParseWithoutAmount(t: string)
    requires t == "send @bob"
    ensures ParseCommand(t) == None
  {
    NoAmountCharIn(t);
    CommandNeedsAmountChar(t);
  }

  lemma NoAmountCharIn(t: string)
    requires t == "send @bob"
    ensures forall k :: 0 <= k < |t| ==> !IsAmountChar(t[k])
  {
  }

  // ---------------------------------------------------------------------------
  // "send @bob12": the handle gives up its last digit to the amount

  lemma Bob12Gap() ensures TryGap("send @bob12", 0, 1, 5, 0) == None {}

  lemma Bob12Amount() ensures TryAmount("send @bob12", 0, 1, 4, 0, false) == Some(Span(0, 1, 4, 0, false, 1)) {
    assert Run("send @bob12", 10, AmountChar) == 1;
  }

  lemma Bob12Dollar() ensures TryDollar("send @bob12", 0, 1, 4, 0) == Some(Span(0, 1, 4, 0, false, 1)) {
    Bob12Amount();
  }

  lemma Bob12CutGap() ensures TryGap("send @bob12", 0, 1, 4, 0) == Some(Span(0, 1, 4, 0, false, 1)) {
    Bob12Dollar();
  }

  lemma Bob12Cut() ensures TryHandle("send @bob12", 0, 1, 4) == Some(Span(0, 1, 4, 0, false, 1)) {
    Bob12CutGap();
    assert Run("send @bob12", 10, Space) == 0;
  }

  lemma Bob12Handle() ensures TryHandle("send @bob12", 0, 1, 5) == Some(Span(0, 1, 4, 0, false, 1)) {
    Bob12Gap();
    Bob12Cut();
  }

  lemma Bob12Word() ensures "@" == "send @bob12"[5..6] && Run("send @bob12", 6, Word) == 5 {}

  lemma Bob12AtSign() ensures TryAtSign("send @bob12", 0, 1) == Some(Span(0, 1, 4, 0, false, 1)) {
    Bob12Handle();
    Bob12Word();
  }

  lemma Bob12Send() ensures SendAt("send @bob12", 0) && Run("send @bob12", 4, Space) == 1 {}

  lemma Bob12Match() ensures MatchAt("send @bob12", 0) == Some(Span(0, 1, 4, 0, false, 1)) {
    Bob12AtSign();
    Bob12Send();
  }

  lemma Bob12Exec() ensures Exec("send @bob12", 0) == Some(Span(0, 1, 4, 0, false, 1)) {
    Bob12Match();
  }

  lemma Bob12Text(t: string)
    requires t == "send @bob12"
    ensures Lower(t) == t && t[6..10] == "bob1" && t[10..11] == "2"
  {
  }

  /** `"send @bob12"` parses to handle `bob1` and amount `2`. */
  lemma ParseBob12(t: string)
    requires t == "send @bob12"
    ensures ParseCommand(t) == Some(Command("bob1", "2"))
  {
    Bob12Text(t);
    Bob12Exec();
    ReadGroups(t, Span(0, 1, 4, 0, false, 1), Command("bob1", "2"));
  }

  // ---------------------------------------------------------------------------
  // "send @bob $5": the space and the dollar sign separate handle and amount

  lemma Bob5Dollar() ensures TryDollar("send @bob $5", 0, 1, 3, 1) == Some(Span(0, 1, 3, 1, true, 1)) {
    assert Run("send @bob $5", 11, AmountChar) == 1;
  }

  lemma Bob5Gap() ensures TryGap("send @bob $5", 0, 1, 3, 1) == Some(Span(0, 1, 3, 1, true, 1)) {
    Bob5Dollar();
  }

  lemma Bob5Space() ensures Run("send @bob $5", 9, Space) == 1 {}

  lemma Bob5Handle() ensures TryHandle("send @bob $5", 0, 1, 3) == Some(Span(0, 1, 3, 1, true, 1)) {
    Bob5Gap();
    Bob5Space();
  }

  lemma Bob5Word() ensures "@" == "send @bob $5"[5..6] && Run("send @bob $5", 6, Word) == 3 {}

  lemma Bob5AtSign() ensures TryAtSign("send @bob $5", 0, 1) == Some(Span(0, 1, 3, 1, true, 1)) {
    Bob5Handle();
    Bob5Word();
  }

  lemma Bob5Send() ensures SendAt("send @bob $5", 0) && Run("send @bob $5", 4, Space) == 1 {}

  lemma Bob5Match() ensures MatchAt("send @bob $5", 0) == Some(Span(0, 1, 3, 1, true, 1)) {
    Bob5AtSign();
    Bob5Send();
  }

  lemma Bob5Exec() ensures Exec("send @bob $5", 0) == Some(Span(0, 1, 3, 1, true, 1)) {
    Bob5Match();
  }

  lemma Bob5Text(t: string)
    requires t == "send @bob $5"
    ensures Lower(t) == t && t[6..9] == "bob" && t[11..12] == "5"
  {
  }

  /** `"send @bob $5"` parses to handle `bob` and amount `5`. */
  lemma ParseBob5(t: string)
    requires t == "send @bob $5"
    ensures ParseCommand(t) == Some(Command("bob", "5"))
  {
    Bob5Text(t);
    Bob5Exec();
    ReadGroups(t, Span(0, 1, 3, 1, true, 1), Command("bob", "5"));
  }

  // ---------------------------------------------------------------------------
  // "SEND @Alice 7": matched after lower-casing, so the handle comes out lower-case

  lemma AliceDollar() ensures TryDollar("send @alice 7", 0, 1, 5, 1) == Some(Span(0, 1, 5, 1, false, 1)) {
    assert Run("send @alice 7", 12, AmountChar) == 1;
  }

  lemma AliceGap() ensures TryGap("send @alice 7", 0, 1, 5, 1) == Some(Span(0, 1, 5, 1, false, 1)) {
    AliceDollar();
  }

  lemma AliceSpace() ensures Run("send @alice 7", 11, Space) == 1 {}

  lemma AliceHandle() ensures TryHandle("send @alice 7", 0, 1, 5) == Some(Span(0, 1, 5, 1, false, 1)) {
    AliceGap();
    AliceSpace();
  }

  lemma AliceWord() ensures "@" == "send @alice 7"[5..6] && Run("send @alice 7", 6, Word) == 5 {}

  lemma AliceAtSign() ensures TryAtSign("send @alice 7", 0, 1) == Some(Span(0, 1, 5, 1, false, 1)) {
    AliceHandle();
    AliceWord();
  }

  lemma AliceSend() ensures SendAt("send @alice 7", 0) && Run("send @alice 7", 4, Space) == 1 {}

  lemma AliceMatch() ensures MatchAt("send @alice 7", 0) == Some(Span(0, 1, 5, 1, false, 1)) {
    AliceAtSign();
    AliceSend();
  }

  lemma AliceExec() ensures Exec("send @alice 7", 0) == Some(Span(0, 1, 5, 1, false, 1)) {
    AliceMatch();
  }

  lemma AliceText(t: string, l: string)
    requires t == "SEND @Alice 7" && l == "send @alice 7"
    ensures Lower(t) == l && l[6..11] == "alice" && l[12..13] == "7"
  {
  }

  /** `"SEND @Alice 7"` parses to handle `alice` and amount `7`. */
  lemma ParseAlice(t: string)
    requires t == "SEND @Alice 7"
    ensures ParseCommand(t) == Some(Command("alice", "7"))
  {
    AliceText(t, "send @alice 7");
    AliceExec();
    ReadGroups(t, Span(0, 1, 5, 1, false, 1), Command("alice", "7"));
  }
}
