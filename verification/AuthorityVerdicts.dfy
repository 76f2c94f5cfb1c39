/** What an inspection says of any three leaves, however they came to be there. */
module AuthorityVerdicts {
  import opened Wrappers
  import opened Json
  import opened Records
  import opened BootstrapCodec
  import opened AuthorityRecords
  import opened AuthorityBinding
  import opened AuthorityLife

  // ---- One leaf ----

  /** A leaf is accepted as a grant exactly if it is the text of a valid grant. */
  lemma GrantIsExact(h: BodyHash, text: string, g: Grant)
    ensures ParseGrant(h, text) == Some(g) <==> GrantValid(h, g) && text == GrantText(g)
  {
    hide ParseGrant, GrantValid, GrantText;
    if ParseGrant(h, text) == Some(g) { GrantIsRead(h, text); }
    if GrantValid(h, g) && text == GrantText(g) { GrantReadsBack(h, g); }
  }

  lemma TerminalIsRead(h: BodyHash, text: string)
    requires ParseTerminal(h, text).Some?
    ensures TerminalValid(h, ParseTerminal(h, text).value) && text == TerminalText(ParseTerminal(h, text).value)
  {
    hide AllPlain, Ascending, ReadRecord, Text, TerminalValid;
    TerminalKeys();
    ReadIsExact(text, TERMINAL_KEYS, TerminalValues(ParseTerminal(h, text).value));
  }

  /** The same for a terminal record. */
  lemma TerminalIsExact(h: BodyHash, text: string, t: Terminal)
    ensures ParseTerminal(h, text) == Some(t) <==> TerminalValid(h, t) && text == TerminalText(t)
  {
    hide ParseTerminal, TerminalValid, TerminalText;
    if ParseTerminal(h, text) == Some(t) { TerminalIsRead(h, text); }
    if TerminalValid(h, t) && text == TerminalText(t) { TerminalReadsBack(h, t); }
  }

  lemma PhaseKeys(r: AuthorityRecord)
    ensures |AuthorityValues(r)| == 4 ==> r.PendingRecord? && AuthorityKeys(r) == PENDING_KEYS
    ensures |AuthorityValues(r)| == 7 ==> r.PreparedRecord? && AuthorityKeys(r) == PREPARED_KEYS
    ensures |AuthorityValues(r)| == 8 ==> r.ConsumedRecord? && AuthorityKeys(r) == CONSUMED_KEYS
  {
  }

  lemma AuthorityIsRead(h: BodyHash, text: string)
    requires ParseAuthority(h, text).Some?
    ensures AuthorityValid(h, ParseAuthority(h, text).value) && text == AuthorityText(ParseAuthority(h, text).value)
  {
    hide AllPlain, Ascending, ReadRecord, Text, AuthorityValid, AuthorityValues, AuthorityOf, AuthorityKeys;
    var r := ParseAuthority(h, text).value;
    PhaseKeys(r);
    AuthorityKeysOrdered(r);
    ReadIsExact(text, AuthorityKeys(r), AuthorityValues(r));
  }

  /** The same for an authority record. */
  lemma AuthorityIsExact(h: BodyHash, text: string, r: AuthorityRecord)
    ensures ParseAuthority(h, text) == Some(r) <==> AuthorityValid(h, r) && text == AuthorityText(r)
  {
    hide ParseAuthority, AuthorityValid, AuthorityText;
    if ParseAuthority(h, text) == Some(r) { AuthorityIsRead(h, text); }
    if AuthorityValid(h, r) && text == AuthorityText(r) { AuthorityReadsBack(h, r); }
  }

  // ---- The three leaves together ----

  ghost predicate IsGrantLeaf(h: BodyHash, leaf: Option<string>, g: Grant) {
    leaf == Some(GrantText(g)) && GrantValid(h, g)
  }

  ghost predicate IsRecordLeaf(h: BodyHash, leaf: Option<string>, r: AuthorityRecord) {
    leaf == Some(AuthorityText(r)) && AuthorityValid(h, r)
  }

  ghost predicate IsTerminalLeaf(h: BodyHash, leaf: Option<string>, t: Terminal) {
    leaf == Some(TerminalText(t)) && TerminalValid(h, t)
  }

  /** A consumed record, its revoked grant and the terminal record that names both. */
  ghost predicate EndsWith(h: BodyHash, d: Leaves, p: AuthorityRecord, g: Grant, t: Terminal) {
    && IsRecordLeaf(h, d.prepared, p) && IsGrantLeaf(h, d.grant, g) && IsTerminalLeaf(h, d.terminal, t)
    && p.ConsumedRecord? && g.revoked
    && g.consumedDigest == p.digest && t.consumedDigest == p.digest && t.grantDigest == g.digest
  }

  /** An authority record that is not ended: alone, or consumed and beside some valid grant. */
  ghost predicate Stands(h: BodyHash, d: Leaves, p: AuthorityRecord) {
    && IsRecordLeaf(h, d.prepared, p) && d.terminal.None?
    && (d.grant.Some? ==> p.ConsumedRecord? && exists g :: IsGrantLeaf(h, d.grant, g))
  }

  lemma LeafTells(h: BodyHash, d: Leaves, p: AuthorityRecord, g: Grant, t: Terminal)
    ensures ParsedAuthority(h, d.prepared) == Some(p) <==> IsRecordLeaf(h, d.prepared, p)
    ensures ParsedGrant(h, d.grant) == Some(g) <==> IsGrantLeaf(h, d.grant, g)
    ensures ParsedTerminal(h, d.terminal) == Some(t) <==> IsTerminalLeaf(h, d.terminal, t)
  {
    hide ParseAuthority, ParseGrant, ParseTerminal, AuthorityText, GrantText, TerminalText, AuthorityValid, GrantValid, TerminalValid;
    if d.prepared.Some? { AuthorityIsExact(h, d.prepared.value, p); }
    if d.grant.Some? { GrantIsExact(h, d.grant.value, g); }
    if d.terminal.Some? { TerminalIsExact(h, d.terminal.value, t); }
  }

  lemma ParsedLeaves(h: BodyHash, d: Leaves)
    ensures ParsedAuthority(h, d.prepared).Some? ==> IsRecordLeaf(h, d.prepared, ParsedAuthority(h, d.prepared).value)
    ensures ParsedGrant(h, d.grant).Some? ==> IsGrantLeaf(h, d.grant, ParsedGrant(h, d.grant).value)
    ensures ParsedTerminal(h, d.terminal).Some? ==> IsTerminalLeaf(h, d.terminal, ParsedTerminal(h, d.terminal).value)
  {
    hide IsRecordLeaf, IsGrantLeaf, IsTerminalLeaf, ParsedAuthority, ParsedGrant, ParsedTerminal;
    var p, g, t := ParsedAuthority(h, d.prepared), ParsedGrant(h, d.grant), ParsedTerminal(h, d.terminal);
    LeafTells(h, d, if p.Some? then p.value else ANY_RECORD, if g.Some? then g.value else ANY_GRANT, if t.Some? then t.value else ANY_END);
  }

  const ANY_RECORD := PendingRecord("")
  const ANY_GRANT := Grant(false, "", "", "", 0, 0, "")
  const ANY_END := Terminal("", "", "")

  /** An inspection reports a terminal record exactly of a whole chain that ends with it. */
  lemma EndIsExact(h: BodyHash, d: Leaves, t: Terminal)
    ensures Inspect(h, d) == TerminalState(t) <==> exists p, g :: EndsWith(h, d, p, g, t)
  {
    hide ParsedAuthority, ParsedGrant, ParsedTerminal, IsRecordLeaf, IsGrantLeaf, IsTerminalLeaf;
    if Inspect(h, d) == TerminalState(t) {
      ParsedLeaves(h, d);
      assert EndsWith(h, d, ParsedAuthority(h, d.prepared).value, ParsedGrant(h, d.grant).value, t);
    }
    if p, g :| EndsWith(h, d, p, g, t) {
      LeafTells(h, d, p, g, t);
      Present(h, d, p, g, t);
    }
  }

  lemma Present(h: BodyHash, d: Leaves, p: AuthorityRecord, g: Grant, t: Terminal)
    ensures IsRecordLeaf(h, d.prepared, p) ==> d.prepared.Some?
    ensures IsGrantLeaf(h, d.grant, g) ==> d.grant.Some?
    ensures IsTerminalLeaf(h, d.terminal, t) ==> d.terminal.Some?
  {
    hide AuthorityText, GrantText, TerminalText, AuthorityValid, GrantValid, TerminalValid;
  }

  /** It reports an authority record exactly where the record stands, and absence exactly of no leaves
      at all; everything else is refused. */
  lemma RecordIsExact(h: BodyHash, d: Leaves, p: AuthorityRecord)
    ensures Inspect(h, d) == AuthorityState(p) <==> Stands(h, d, p)
    ensures Inspect(h, d) == AbsentState <==> d == Leaves(None, None, None)
  {
    hide ParsedAuthority, ParsedGrant, ParsedTerminal, IsRecordLeaf, IsGrantLeaf, IsTerminalLeaf;
    ParsedLeaves(h, d);
    if Stands(h, d, p) {
      LeafTells(h, d, p, ANY_GRANT, ANY_END);
      Present(h, d, p, ANY_GRANT, ANY_END);
      if d.grant.Some? {
        var g :| IsGrantLeaf(h, d.grant, g);
        LeafTells(h, d, p, g, ANY_END);
      }
    }
  }

  lemma EndParts(h: BodyHash, d: Leaves, p: AuthorityRecord, g: Grant, t: Terminal)
    requires EndsWith(h, d, p, g, t)
    ensures GrantValid(h, g) && TerminalValid(h, t)
  {
    hide AuthorityText, GrantText, TerminalText, AuthorityValid, GrantValid, TerminalValid;
  }

  /** Exchanging the terminal record, or the revoked grant, of an ended chain for another valid one is
      noticed: the leaves are refused. */
  lemma ExchangedIsRefused(h: BodyHash, d: Leaves, p: AuthorityRecord, g: Grant, t: Terminal, other: Grant, otherEnd: Terminal)
    requires EndsWith(h, d, p, g, t) && Injective(h) && GrantValid(h, other) && TerminalValid(h, otherEnd)
    ensures other != g ==> Inspect(h, d.(grant := Some(GrantText(other)))) == InvalidState
    ensures otherEnd != t ==> Inspect(h, d.(terminal := Some(TerminalText(otherEnd)))) == InvalidState
  {
    hide *;
    EndParts(h, d, p, g, t);
    if other != g {
      if other.digest == g.digest { DigestDeterminesGrant(h, g, other); }
      ExchangedGrant(h, d, p, g, t, other);
    }
    if otherEnd != t { ExchangedEnd(h, d, p, g, t, otherEnd); }
  }

  lemma ExchangedGrant(h: BodyHash, d: Leaves, p: AuthorityRecord, g: Grant, t: Terminal, other: Grant)
    requires EndsWith(h, d, p, g, t) && GrantValid(h, other) && other.digest != g.digest
    ensures Inspect(h, d.(grant := Some(GrantText(other)))) == InvalidState
  {
    hide ParseAuthority, ParseGrant, ParseTerminal, AuthorityText, GrantText, TerminalText, AuthorityValid, GrantValid, TerminalValid;
    LeafTells(h, d.(grant := Some(GrantText(other))), p, other, t);
  }

  lemma ExchangedEnd(h: BodyHash, d: Leaves, p: AuthorityRecord, g: Grant, t: Terminal, other: Terminal)
    requires EndsWith(h, d, p, g, t) && TerminalValid(h, other) && other != t
    ensures Inspect(h, d.(terminal := Some(TerminalText(other)))) == InvalidState
  {
    assert TerminalValid(h, t) by { hide TerminalValid, TerminalText; }
    if other.consumedDigest == t.consumedDigest && other.grantDigest == t.grantDigest { SameTerminal(h, other, t); }
    hide ParseAuthority, ParseGrant, ParseTerminal, AuthorityText, GrantText, TerminalText, AuthorityValid, GrantValid, TerminalValid;
    LeafTells(h, d.(terminal := Some(TerminalText(other))), p, g, other);
  }

  /** A valid terminal record is given by what it names. */
  lemma SameTerminal(h: BodyHash, a: Terminal, b: Terminal)
    requires TerminalValid(h, a) && TerminalValid(h, b) && a.consumedDigest == b.consumedDigest && a.grantDigest == b.grantDigest
    ensures a == b
  {
    hide IsDigest, TerminalDigest;
    TerminalWithoutDigest(h, a, b.digest);
  }
}
