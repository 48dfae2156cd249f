/** The text being searched and what the engine can see of it at one position. */
module Text {
  import opened Strip

  /** A place in the text. `w` records that a word-boundary operator has been passed here:
      the engine gives those one step per position, after the line anchors, so past one of them
      no further anchor can be passed at the same position. */
  datatype At = At(p: nat, w: bool)

  /** What the stepper is fed: a character, or one of the codes above CHAR_MAX. */
  datatype Symbol = Ch(c: char) | Bol | Eol | BolEol | Nothing | Bow | Eow

  /** ISWORD in the C locale. */
  predicate IsWord(c: char) {
    'a' <= c <= 'z' || 'A' <= c <= 'Z' || '0' <= c <= '9' || c == '_'
  }

  /** Does an operator that consults the input let this symbol through? */
  predicate Fires(sets: seq<set<char>>, op: Sop, ch: Symbol) {
    match op
    case OChar(c) => ch == Ch(c)
    case OBol => ch.Bol? || ch.BolEol?
    case OEol => ch.Eol? || ch.BolEol?
    case OBow => ch.Bow?
    case OEow => ch.Eow?
    case OAny => ch.Ch?
    case OAnyOf(n) => ch.Ch? && n < |sets| && ch.c in sets[n]
    case _ => false
  }

  datatype Subject = Subject(text: seq<char>, begin: nat, end: nat, newline: bool, notbol: bool, noteol: bool,
                             sets: seq<set<char>>)
  {
    ghost predicate Valid() { begin <= end <= |text| }

    /** The character before `p`, None standing for OUT. */
    function LastC(p: nat): Option<char>
      requires Valid() && begin <= p <= end
    {
      if p == begin then None else Some(text[p - 1])
    }

    /** The character at `p`, None standing for OUT. */
    function NextC(p: nat): Option<char>
      requires Valid() && begin <= p <= end
    {
      if p == end then None else Some(text[p])
    }

    predicate BolAt(p: nat)
      requires Valid() && begin <= p <= end
    {
      (LastC(p) == Some('\n') && newline) || (LastC(p) == None && !notbol)
    }

    predicate EolAt(p: nat)
      requires Valid() && begin <= p <= end
    {
      (NextC(p) == Some('\n') && newline) || (NextC(p) == None && !noteol)
    }

    predicate BowAt(p: nat)
      requires Valid() && begin <= p <= end
    {
      (BolAt(p) || (LastC(p).Some? && !IsWord(LastC(p).value))) && NextC(p).Some? && IsWord(NextC(p).value)
    }

    predicate EowAt(p: nat)
      requires Valid() && begin <= p <= end
    {
      LastC(p).Some? && IsWord(LastC(p).value)
      && ((EolAt(p) && !BolAt(p)) || (NextC(p).Some? && !IsWord(NextC(p).value)))
    }

    /** Where an operator that consults the text leads from `a`, if anywhere. */
    function Consume(op: Sop, a: At): (r: Option<At>)
      requires Valid() && begin <= a.p <= end
      ensures r.Some? ==> a.p <= r.value.p <= end
    {
      match op
      case OChar(_) => if a.p < end && Fires(sets, op, Ch(text[a.p])) then Some(At(a.p + 1, false)) else None
      case OAny => if a.p < end then Some(At(a.p + 1, false)) else None
      case OAnyOf(_) => if a.p < end && Fires(sets, op, Ch(text[a.p])) then Some(At(a.p + 1, false)) else None
      case OBol => if !a.w && BolAt(a.p) then Some(a) else None
      case OEol => if !a.w && EolAt(a.p) then Some(a) else None
      case OBow => if !a.w && BowAt(a.p) then Some(At(a.p, true)) else None
      case OEow => if !a.w && EowAt(a.p) then Some(At(a.p, true)) else None
      case _ => None
    }
  }
}
