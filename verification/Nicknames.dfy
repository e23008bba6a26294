/** The nickname registry: probing for the first free name under a uniqueness constraint. */
module Nicknames {
  import opened Options
  import opened Numbers
  import opened Digits
  import opened Sequences

  /** A wallet address, as a 256-bit number. */
  type Address = nat

  type Block = b: seq<Byte> | |b| == 32 witness seq(32, _ => 0)

  type WordList = w: seq<string> | |w| == 256 witness seq(256, _ => "")

  /** `block(a, k)` stands for the SHA-256 of the address's seed and block index `k`. */
  datatype Namer = Namer(adjectives: WordList, nouns: WordList, block: (Address, nat) -> Block)

  datatype Limits = Limits(bareLimit: nat, suffixMax: nat)

  datatype Row = Row(address: Address, nickname: string)

  datatype Answer = Named(nickname: string, isNew: bool) | Exhausted

  // ---------------------------------------------------------------------
  // Candidates
  // ---------------------------------------------------------------------

  function ProbeCandidate(namer: Namer, address: Address, i: nat): string {
    var block, byteOffset := namer.block(address, i / 16), i % 16 * 2;
    namer.adjectives[block[byteOffset]] + "-" + namer.nouns[block[byteOffset + 1]]
  }

  function Suffixed(name: string, suffix: nat): string {
    name + "-" + Decimal(suffix)
  }

  function SuffixCount(limits: Limits): nat {
    if limits.suffixMax < 2 then 0 else limits.suffixMax - 1
  }

  /** Every name an address may get, in the order they are tried. */
  function Candidates(namer: Namer, address: Address, limits: Limits): seq<string> {
    seq(limits.bareLimit, i requires 0 <= i < limits.bareLimit => ProbeCandidate(namer, address, i))
    + seq(SuffixCount(limits), j requires 0 <= j < SuffixCount(limits) => Suffixed(ProbeCandidate(namer, address, 0), j + 2))
  }

  /** The first `n` hash blocks of an address, end to end. */
  function Stream(namer: Namer, address: Address, n: nat): (bytes: seq<Byte>)
    ensures |bytes| == 32 * n
  {
    if n == 0 then [] else Stream(namer, address, n - 1) + namer.block(address, n - 1)
  }

  lemma {:induction false} StreamAt(namer: Namer, address: Address, n: nat, k: nat)
    requires k < 32 * n
    ensures Stream(namer, address, n)[k] == namer.block(address, k / 32)[k % 32]
  {
    if k < 32 * (n - 1) { StreamAt(namer, address, n - 1, k); }
  }

  /** Candidate `i` spends bytes `2i` and `2i + 1` of the stream: an adjective, a dash and a noun. */
  lemma ProbeReadsStream(namer: Namer, address: Address, i: nat, n: nat)
    requires 2 * i + 1 < 32 * n
    ensures var bytes := Stream(namer, address, n);
            ProbeCandidate(namer, address, i) == namer.adjectives[bytes[2 * i]] + ['-'] + namer.nouns[bytes[2 * i + 1]]
  {
    StreamAt(namer, address, n, 2 * i);
    StreamAt(namer, address, n, 2 * i + 1);
    assert 2 * i / 32 == i / 16 && 2 * i % 32 == i % 16 * 2;
    assert (2 * i + 1) / 32 == i / 16 && (2 * i + 1) % 32 == i % 16 * 2 + 1;
  }

  /** First the bare probes in order, then the first one with the suffixes 2 to `suffixMax`. */
  lemma CandidatesInOrder(namer: Namer, address: Address, limits: Limits, i: nat, suffix: nat)
    ensures |Candidates(namer, address, limits)| == limits.bareLimit + if limits.suffixMax < 2 then 0 else limits.suffixMax - 1
    ensures i < limits.bareLimit ==> Candidates(namer, address, limits)[i] == ProbeCandidate(namer, address, i)
    ensures 2 <= suffix <= limits.suffixMax ==>
              Candidates(namer, address, limits)[limits.bareLimit + suffix - 2]
              == ProbeCandidate(namer, address, 0) + ['-'] + Decimal(suffix)
  {
    hide ProbeCandidate;
    var all := Candidates(namer, address, limits);
    if 2 <= suffix <= limits.suffixMax {
      assert all[limits.bareLimit + suffix - 2] == Suffixed(ProbeCandidate(namer, address, 0), suffix);
    }
  }

  predicate Taken(rows: seq<Row>, name: string) {
    exists i :: 0 <= i < |rows| && rows[i].nickname == name
  }

  predicate Registered(rows: seq<Row>, address: Address) {
    exists i :: 0 <= i < |rows| && rows[i].address == address
  }

  /** The name of an address's row. */
  function NameOf(rows: seq<Row>, address: Address): Option<string> {
    if rows == [] then None
    else if rows[0].address == address then Some(rows[0].nickname)
    else NameOf(rows[1..], address)
  }

  function FirstFree(candidates: seq<string>, rows: seq<Row>): Option<string> {
    if candidates == [] then None
    else if !Taken(rows, candidates[0]) then Some(candidates[0])
    else FirstFree(candidates[1..], rows)
  }

  // ---------------------------------------------------------------------
  // The registry over time
  // ---------------------------------------------------------------------

  function AnswerTo(namer: Namer, limits: Limits, rows: seq<Row>, address: Address): Answer {
    match NameOf(rows, address)
    case Some(name) => Named(name, false)
    case None =>
      match FirstFree(Candidates(namer, address, limits), rows)
      case Some(name) => Named(name, true)
      case None => Exhausted
  }

  function RowsAfter(namer: Namer, limits: Limits, rows: seq<Row>, address: Address): seq<Row> {
    match AnswerTo(namer, limits, rows, address)
    case Named(name, isNew) => if isNew then rows + [Row(address, name)] else rows
    case Exhausted => rows
  }

  function Registry(namer: Namer, limits: Limits, calls: seq<Address>): seq<Row> {
    if calls == [] then []
    else RowsAfter(namer, limits, Registry(namer, limits, calls[..|calls| - 1]), calls[|calls| - 1])
  }

  lemma {:induction false} NameOfMeaning(rows: seq<Row>, address: Address)
    ensures NameOf(rows, address).Some? <==> Registered(rows, address)
    ensures NameOf(rows, address).Some? ==> Row(address, NameOf(rows, address).value) in rows
  {
    if rows != [] {
      NameOfMeaning(rows[1..], address);
      if Registered(rows, address) && rows[0].address != address {
        var i :| 0 <= i < |rows| && rows[i].address == address;
        assert rows[1..][i - 1].address == address;
      }
      if NameOf(rows, address).Some? && rows[0].address != address {
        var i :| 0 <= i < |rows[1..]| && rows[1..][i].address == address;
        assert rows[i + 1].address == address;
      }
    }
  }

  lemma {:induction false} NameOfGrows(rows: seq<Row>, more: seq<Row>, address: Address)
    requires NameOf(rows, address).Some?
    ensures NameOf(rows + more, address) == NameOf(rows, address)
  {
    assert (rows + more)[1..] == rows[1..] + more;
    if rows[0].address != address { NameOfGrows(rows[1..], more, address); }
  }

  lemma {:induction false} FirstFreeMeaning(candidates: seq<string>, rows: seq<Row>)
    ensures FirstFree(candidates, rows).None? <==> forall k :: 0 <= k < |candidates| ==> Taken(rows, candidates[k])
    ensures FirstFree(candidates, rows).Some? ==> !Taken(rows, FirstFree(candidates, rows).value)
  {
    if candidates != [] {
      FirstFreeMeaning(candidates[1..], rows);
      assert forall k :: 1 <= k < |candidates| ==> candidates[k] == candidates[1..][k - 1];
    }
  }

  /** The uniqueness constraints of the table. */
  ghost predicate Unique(rows: seq<Row>) {
    forall i, j :: 0 <= i < j < |rows| ==> rows[i].address != rows[j].address && rows[i].nickname != rows[j].nickname
  }

  /** A row's name is the first candidate that no earlier row holds. */
  ghost predicate FirstComeFirstServed(namer: Namer, limits: Limits, rows: seq<Row>) {
    forall k :: 0 <= k < |rows| ==>
      Some(rows[k].nickname) == FirstFree(Candidates(namer, rows[k].address, limits), rows[..k])
  }

  lemma CallKeeps(namer: Namer, limits: Limits, rows: seq<Row>, address: Address)
    requires Unique(rows) && FirstComeFirstServed(namer, limits, rows)
    ensures var after := RowsAfter(namer, limits, rows, address);
            Unique(after) && FirstComeFirstServed(namer, limits, after) && rows <= after
  {
    hide Candidates, FirstFree, NameOf;
    NameOfMeaning(rows, address);
    FirstFreeMeaning(Candidates(namer, address, limits), rows);
    var after := RowsAfter(namer, limits, rows, address);
    forall k | 0 <= k < |after|
      ensures Some(after[k].nickname) == FirstFree(Candidates(namer, after[k].address, limits), after[..k])
    {
      assert after[..k] == rows[..k];
      if k == |rows| { assert rows[..k] == rows; }
    }
  }

  /** Over any history: addresses and names are distinct, and each name was the first one free. */
  lemma {:induction false} RegistryIsSound(namer: Namer, limits: Limits, calls: seq<Address>)
    ensures Unique(Registry(namer, limits, calls))
    ensures FirstComeFirstServed(namer, limits, Registry(namer, limits, calls))
  {
    hide RowsAfter;
    if calls != [] {
      RegistryIsSound(namer, limits, calls[..|calls| - 1]);
      CallKeeps(namer, limits, Registry(namer, limits, calls[..|calls| - 1]), calls[|calls| - 1]);
    }
  }

  /** Rows are never changed or dropped, whatever is called later. */
  lemma {:induction false} RowsStay(namer: Namer, limits: Limits, calls: seq<Address>, more: seq<Address>)
    ensures Registry(namer, limits, calls) <= Registry(namer, limits, calls + more)
    decreases |more|
  {
    hide RowsAfter;
    if more == [] {
      assert calls + more == calls;
    } else {
      var all, n := calls + more, |more| - 1;
      assert all[..|all| - 1] == calls + more[..n];
      RowsStay(namer, limits, calls, more[..n]);
      RegistryIsSound(namer, limits, calls + more[..n]);
      CallKeeps(namer, limits, Registry(namer, limits, calls + more[..n]), more[n]);
    }
  }

  lemma AnswerIsRecorded(namer: Namer, limits: Limits, rows: seq<Row>, address: Address)
    requires AnswerTo(namer, limits, rows, address).Named?
    ensures NameOf(RowsAfter(namer, limits, rows, address), address)
         == Some(AnswerTo(namer, limits, rows, address).nickname)
  {
    hide Candidates, FirstFree;
    if NameOf(rows, address).None? { AppendedName(rows, address, AnswerTo(namer, limits, rows, address).nickname); }
  }

  lemma {:induction false} AppendedName(rows: seq<Row>, address: Address, name: string)
    requires NameOf(rows, address).None?
    ensures NameOf(rows + [Row(address, name)], address) == Some(name)
  {
    if rows != [] {
      assert (rows + [Row(address, name)])[1..] == rows[1..] + [Row(address, name)];
      AppendedName(rows[1..], address, name);
    }
  }

  /** Once named, an address gets the same answer for good, and asking changes nothing. */
  lemma SameAnswerAgain(namer: Namer, limits: Limits, calls: seq<Address>, address: Address, more: seq<Address>)
    requires AnswerTo(namer, limits, Registry(namer, limits, calls), address).Named?
    ensures var first := AnswerTo(namer, limits, Registry(namer, limits, calls), address);
            var later := Registry(namer, limits, calls + [address] + more);
            && AnswerTo(namer, limits, later, address) == Named(first.nickname, false)
            && RowsAfter(namer, limits, later, address) == later
  {
    hide RowsAfter, FirstFree, Candidates;
    var before, first := Registry(namer, limits, calls), Registry(namer, limits, calls + [address]);
    var later := Registry(namer, limits, calls + [address] + more);
    assert (calls + [address])[..|calls|] == calls;
    AnswerIsRecorded(namer, limits, before, address);
    RowsStay(namer, limits, calls + [address], more);
    assert later == first + later[|first|..];
    NameOfGrows(first, later[|first|..], address);
    NoNewRow(namer, limits, later, address);
  }

  lemma NoNewRow(namer: Namer, limits: Limits, rows: seq<Row>, address: Address)
    requires NameOf(rows, address).Some?
    ensures RowsAfter(namer, limits, rows, address) == rows
  {
    hide FirstFree, Candidates;
  }

  // ---------------------------------------------------------------------
  // Capacity
  // ---------------------------------------------------------------------

  /** With more names than rows, one is free. */
  lemma {:induction false} Pigeonhole(names: seq<string>, rows: seq<Row>) returns (k: nat)
    requires Distinct(names) && |rows| < |names|
    ensures k < |names| && !Taken(rows, names[k])
    decreases |rows|
  {
    if rows == [] {
      k := 0;
    } else {
      var n := |rows| - 1;
      assert forall name :: Taken(rows, name) <==> Taken(rows[..n], name) || rows[n].nickname == name;
      if j :| 0 <= j < |names| && names[j] == rows[n].nickname {
        var rest := Without(names, j);
        assert forall i :: 0 <= i < |rest| ==> rest[i] == names[if i < j then i else i + 1];
        k := Pigeonhole(rest, rows[..n]);
        k := if k < j then k else k + 1;
      } else {
        k := Pigeonhole(names, rows[..n]);
      }
    }
  }

  /** The names built on the first probe: bare, and with the suffixes 2, 3, ... */
  function NamesOnFirstProbe(namer: Namer, address: Address, suffixMax: nat): (names: seq<string>)
    ensures |names| == suffixMax
  {
    seq(suffixMax, i requires 0 <= i < suffixMax =>
      var name := ProbeCandidate(namer, address, 0);
      if i == 0 then name else Suffixed(name, i + 1))
  }

  lemma SuffixesDiffer(name: string, a: nat, b: nat)
    requires a != b
    ensures Suffixed(name, a) != Suffixed(name, b) && Suffixed(name, a) != name
  {
    if Suffixed(name, a) == Suffixed(name, b) {
      assert Decimal(a) == Suffixed(name, a)[|name| + 1..] == Suffixed(name, b)[|name| + 1..] == Decimal(b);
      DecimalInjective(a, b);
    }
    assert |Suffixed(name, a)| > |name|;
  }

  lemma FirstProbeNames(namer: Namer, address: Address, limits: Limits)
    requires limits.bareLimit >= 1
    ensures var names := NamesOnFirstProbe(namer, address, limits.suffixMax);
            && Distinct(names)
            && forall k :: 0 <= k < |names| ==> names[k] in Candidates(namer, address, limits)
  {
    hide ProbeCandidate, Suffixed;
    var names, name := NamesOnFirstProbe(namer, address, limits.suffixMax), ProbeCandidate(namer, address, 0);
    var all := Candidates(namer, address, limits);
    forall i, j | 0 <= i < j < |names| ensures names[i] != names[j] { SuffixesDiffer(name, j + 1, i + 1); }
    forall k | 0 <= k < |names| ensures names[k] in all {
      assert names[k] == all[if k == 0 then 0 else limits.bareLimit + k - 1];
    }
  }

  /** No call fails while there are fewer than `suffixMax` rows, whatever they are, and one bare probe. */
  lemma NeverExhausted(namer: Namer, limits: Limits, rows: seq<Row>, address: Address)
    requires limits.bareLimit >= 1 && |rows| < limits.suffixMax
    ensures AnswerTo(namer, limits, rows, address).Named?
  {
    hide FirstFree, Candidates, NameOf;
    var names, all := NamesOnFirstProbe(namer, address, limits.suffixMax), Candidates(namer, address, limits);
    FirstProbeNames(namer, address, limits);
    var k := Pigeonhole(names, rows);
    FirstFreeMeaning(all, rows);
    assert names[k] in all;
  }

  lemma {:induction false} FirstFreeSkips(candidates: seq<string>, rows: seq<Row>, n: nat)
    requires n < |candidates| && !Taken(rows, candidates[n])
    requires forall k :: 0 <= k < n ==> Taken(rows, candidates[k])
    ensures FirstFree(candidates, rows) == Some(candidates[n])
  {
    if n > 0 { FirstFreeSkips(candidates[1..], rows, n - 1); }
  }

  /** A namer whose hash sends every address to the same words. */
  ghost predicate Collides(namer: Namer) {
    forall a: Address, b: Address, k: nat :: namer.block(a, k) == namer.block(b, k)
  }

  /** With one bare probe the candidates are the names on the first probe, the same for all colliding addresses. */
  lemma CollidingCandidates(namer: Namer, suffixMax: nat, a: Address, b: Address)
    requires Collides(namer) && suffixMax >= 1
    ensures Candidates(namer, a, Limits(1, suffixMax)) == NamesOnFirstProbe(namer, b, suffixMax)
  {
    hide Suffixed;
    assert ProbeCandidate(namer, a, 0) == ProbeCandidate(namer, b, 0);
  }

  /** Colliding addresses get the candidates one after the other. */
  lemma {:induction false} RegistryFills(namer: Namer, suffixMax: nat, calls: seq<Address>, base: Address)
    requires Collides(namer) && Distinct(calls) && 1 <= suffixMax && |calls| <= suffixMax
    ensures var rows := Registry(namer, Limits(1, suffixMax), calls);
            && |rows| == |calls|
            && forall i :: 0 <= i < |rows| ==> rows[i] == Row(calls[i], NamesOnFirstProbe(namer, base, suffixMax)[i])
  {
    hide FirstFree, NameOf, Candidates, NamesOnFirstProbe;
    if calls != [] {
      var n, limits := |calls| - 1, Limits(1, suffixMax);
      var rows, all := Registry(namer, limits, calls[..n]), NamesOnFirstProbe(namer, base, suffixMax);
      RegistryFills(namer, suffixMax, calls[..n], base);
      FirstProbeNames(namer, base, limits);
      CollidingCandidates(namer, suffixMax, calls[n], base);
      NameOfMeaning(rows, calls[n]);
      forall k | 0 <= k < n ensures Taken(rows, all[k]) { assert rows[k].nickname == all[k]; }
      FirstFreeSkips(all, rows, n);
    }
  }

  /** The bound is tight: with one bare probe and a colliding hash, `suffixMax` registrations leave nothing for the next address. */
  lemma CapacityIsTight(namer: Namer, suffixMax: nat, calls: seq<Address>, address: Address)
    requires Collides(namer) && Distinct(calls) && |calls| == suffixMax >= 1 && address !in calls
    ensures var rows := Registry(namer, Limits(1, suffixMax), calls);
            |rows| == suffixMax && AnswerTo(namer, Limits(1, suffixMax), rows, address) == Exhausted
  {
    hide FirstFree, NameOf, Candidates, NamesOnFirstProbe, Registry;
    var rows := Registry(namer, Limits(1, suffixMax), calls);
    var all := NamesOnFirstProbe(namer, address, suffixMax);
    RegistryFills(namer, suffixMax, calls, address);
    CollidingCandidates(namer, suffixMax, address, address);
    FirstFreeMeaning(all, rows);
    NameOfMeaning(rows, address);
    forall k | 0 <= k < |all| ensures Taken(rows, all[k]) { assert rows[k].nickname == all[k]; }
  }

  // ---------------------------------------------------------------------
  // The registry as it runs
  // ---------------------------------------------------------------------

  class NicknameDb {
    var rows: seq<Row>

    constructor ()
      ensures rows == []
    {
      rows := [];
    }

    /** `SELECT nickname FROM nicknames WHERE address = ?` */
    method Select(address: Address) returns (name: Option<string>)
      ensures name == NameOf(rows, address)
    {
      var i := 0;
      while i < |rows|
        invariant i <= |rows| && NameOf(rows, address) == NameOf(rows[i..], address)
      {
        if rows[i].address == address {
          return Some(rows[i].nickname);
        }
        i := i + 1;
      }
      return None;
    }

    /** `INSERT`, refused by the primary key and by the uniqueness of nicknames. */
    method TryInsert(address: Address, nickname: string) returns (inserted: bool)
      modifies this
      ensures inserted <==> !old(Registered(rows, address)) && !old(Taken(rows, nickname))
      ensures rows == if inserted then old(rows) + [Row(address, nickname)] else old(rows)
    {
      for i := 0 to |rows|
        invariant rows == old(rows)
        invariant forall k :: 0 <= k < i ==> rows[k].address != address && rows[k].nickname != nickname
      {
        if rows[i].address == address || rows[i].nickname == nickname {
          return false;
        }
      }
      rows := rows + [Row(address, nickname)];
      return true;
    }

    /** The bare probes, in order; `None` when all are taken. */
    method ProbeBare(namer: Namer, address: Address, limits: Limits) returns (answer: Option<Answer>)
      requires NameOf(rows, address).None?
      modifies this
      ensures answer.None? ==> rows == old(rows)
      ensures var all := Candidates(namer, address, limits);
              answer.None? ==> FirstFree(all, rows) == FirstFree(all[limits.bareLimit..], rows)
      ensures answer.Some? ==> answer.value == AnswerTo(namer, limits, old(rows), address)
      ensures answer.Some? ==> rows == RowsAfter(namer, limits, old(rows), address)
    {
      NameOfMeaning(rows, address);
      hide NameOf, ProbeCandidate;
      ghost var all := Candidates(namer, address, limits);
      for i := 0 to limits.bareLimit
        invariant rows == old(rows)
        invariant FirstFree(all, rows) == FirstFree(all[i..], rows)
      {
        var candidate := ProbeCandidate(namer, address, i);
        assert all[i..][0] == candidate && all[i..][1..] == all[i + 1..];
        var inserted := TryInsert(address, candidate);
        if inserted {
          return Some(Named(candidate, true));
        }
        var concurrent := Select(address);
        match concurrent
        case Some(name) => return Some(Named(name, false));
        case None =>
      }
      return None;
    }

    /** The suffixed probes, in order; `None` when all are taken. */
    method ProbeSuffixes(namer: Namer, address: Address, limits: Limits) returns (name: Option<string>)
      requires NameOf(rows, address).None?
      modifies this
      ensures name == FirstFree(Candidates(namer, address, limits)[limits.bareLimit..], old(rows))
      ensures rows == if name.Some? then old(rows) + [Row(address, name.value)] else old(rows)
    {
      NameOfMeaning(rows, address);
      hide NameOf, ProbeCandidate, Suffixed;
      ghost var rest := Candidates(namer, address, limits)[limits.bareLimit..];
      var baseCandidate := ProbeCandidate(namer, address, 0);
      var suffix: nat := 2;
      while suffix <= limits.suffixMax
        invariant 2 <= suffix && (suffix == 2 || suffix <= limits.suffixMax + 1)
        invariant rows == old(rows)
        invariant FirstFree(rest, rows) == FirstFree(rest[suffix - 2..], rows)
      {
        var candidate := Suffixed(baseCandidate, suffix);
        assert rest[suffix - 2..][0] == candidate && rest[suffix - 2..][1..] == rest[suffix - 1..];
        var inserted := TryInsert(address, candidate);
        if inserted {
          return Some(candidate);
        }
        suffix := suffix + 1;
      }
      return None;
    }

    method AssignNickname(namer: Namer, address: Address, limits: Limits) returns (answer: Answer)
      modifies this
      ensures answer == AnswerTo(namer, limits, old(rows), address)
      ensures rows == RowsAfter(namer, limits, old(rows), address)
    {
      hide FirstFree, Candidates;
      var existing := Select(address);
      if existing.Some? {
        return Named(existing.value, false);
      }
      var bare := ProbeBare(namer, address, limits);
      if bare.Some? {
        return bare.value;
      }
      var name := ProbeSuffixes(namer, address, limits);
      match name
      case Some(suffixed) => return Named(suffixed, true);
      case None => return Exhausted;
    }
  }
}
