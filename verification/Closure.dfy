/** The offsets of a program's instructions are closed: whatever can come next after
  * an instruction, when the code is run or when it is walked through, is again the
  * offset of an instruction.
  */
module Closure {
  import opened Opcodes
  import opened Tree
  import opened Meaning
  import opened Machine
  import opened Runs
  import opened Decoding
  import opened Program

  /** Everything that can follow the instruction i at offset o is in the set. */
  ghost predicate Leads(i: Instr, o: nat, offs: set<nat>) {
    match i
    case IBad => false
    case IAnchor(_, next) => next in offs
    case IOne(_, next) => next in offs
    case IRep(_, _, _, _, next) => next in offs
    case IOpen(starts) => |starts| > 0 && forall j :: 0 <= j < |starts| ==> starts[j] in offs
    case IAlt(end) => end in offs && o + 3 in offs
    case IKet(next, back) => next in offs && (back.Some? ==> back.value in offs)
    case IZero(inside, after) => after in offs && o + 1 in offs && (inside.Some? ==> inside.value == o + 1)
    case ICall(_, _, next) => next in offs
  }

  ghost predicate Closed(code: seq<byte>, offs: set<nat>) {
    && |code| > 0 && code[|code| - 1] == OP_END && |code| - 1 in offs && 0 in offs
    && forall o: nat :: o in offs ==> o < |code| && (o == |code| - 1 || Leads(Decode(code, o), o, offs))
  }

  /** All instructions of a program. */
  ghost function AllOffsets(root: Item): set<nat> {
    Offsets(root, 0) + {Size(root)}
  }

  lemma LeadsMono(i: Instr, o: nat, offs: set<nat>, offs': set<nat>)
    requires Leads(i, o, offs) && offs <= offs'
    ensures Leads(i, o, offs')
  {
  }

  lemma StartsLead(ins: seq<Instr>, alts: Alts, st: nat, end: nat)
    requires CodeAlts(ins, st, alts, end)
    ensures |Starts(alts, st)| > 0
    ensures forall j :: 0 <= j < |Starts(alts, st)| ==> Starts(alts, st)[j] in AltsOffsets(alts, st) + {end}
  {
    hide CodeAlts, AltsOffsets;
    forall j | 0 <= j < |Starts(alts, st)| ensures Starts(alts, st)[j] in AltsOffsets(alts, st) + {end} {
      StartsAreOffsets(ins, alts, st, end, Starts(alts, st)[j]);
    }
  }

  lemma BracketLeads(ins: seq<Instr>, g: Item, a: nat, o: nat)
    requires g.Group? && CodeItem(ins, a, g) && (o == a || o == KetOffset(a, g))
    ensures o < |ins| && Leads(ins[o], o, Offsets(g, a) + {a + Size(g)})
  {
    hide CodeAlts, AltsOffsets, Starts;
    StartsLead(ins, g.alts, a + BraSize(g.bra), KetOffset(a, g));
  }

  lemma ZeroLeads(ins: seq<Instr>, it: Item, a: nat)
    requires it.Zero? && CodeItem(ins, a, it)
    ensures it.group.Group? && CodeItem(ins, a + 1, it.group)
    ensures Offsets(it, a) == {a} + Offsets(it.group, a + 1) && a + Size(it) == a + 1 + Size(it.group)
    ensures a < |ins| && Leads(ins[a], a, Offsets(it, a) + {a + Size(it)})
  {
    FirstOffset(it.group, a + 1);
  }

  lemma SimpleLeads(ins: seq<Instr>, it: Item, a: nat, o: nat)
    requires CodeItem(ins, a, it) && o in Offsets(it, a) && !it.Group? && !it.Zero?
    ensures o < |ins| && Leads(ins[o], o, Offsets(it, a) + {a + Size(it)})
  {
  }

  lemma {:induction false} ItemLeads(ins: seq<Instr>, it: Item, a: nat, o: nat)
    requires CodeItem(ins, a, it) && o in Offsets(it, a)
    ensures o < |ins| && Leads(ins[o], o, Offsets(it, a) + {a + Size(it)})
    decreases it
  {
    hide CodeItem, CodeAlts, Leads, Offsets, AltsOffsets, Size;
    match it
    case Group(bra, _, alts, ket) =>
      GroupParts(ins, it, a);
      if o == a || o == KetOffset(a, it) {
        BracketLeads(ins, it, a, o);
      } else {
        AltsLead(ins, alts, a + BraSize(bra), KetOffset(a, it), o);
        LeadsMono(ins[o], o, AltsOffsets(alts, a + BraSize(bra)) + {KetOffset(a, it)}, Offsets(it, a) + {a + Size(it)});
      }
    case Zero(_, g) =>
      ZeroLeads(ins, it, a);
      if o != a {
        ItemLeads(ins, g, a + 1, o);
        LeadsMono(ins[o], o, Offsets(g, a + 1) + {a + 1 + Size(g)}, Offsets(it, a) + {a + Size(it)});
      }
    case _ => SimpleLeads(ins, it, a, o);
  }

  lemma {:induction false} BranchLeads(ins: seq<Instr>, b: Branch, a: nat, o: nat)
    requires CodeBranch(ins, a, b) && o in BranchOffsets(b, a)
    ensures o < |ins| && Leads(ins[o], o, BranchOffsets(b, a) + {a + BranchSize(b)})
    decreases b
  {
    hide Leads, CodeItem, Offsets;
    var a2 := a + Size(b.head);
    var all := BranchOffsets(b, a) + {a + BranchSize(b)};
    if o in Offsets(b.head, a) {
      ItemLeads(ins, b.head, a, o);
      BranchStart(b.tail, a2);
      LeadsMono(ins[o], o, Offsets(b.head, a) + {a2}, all);
    } else {
      BranchLeads(ins, b.tail, a2, o);
      LeadsMono(ins[o], o, BranchOffsets(b.tail, a2) + {a2 + BranchSize(b.tail)}, all);
    }
  }

  lemma AltParts(ins: seq<Instr>, alts: Alts, st: nat, end: nat)
    requires CodeAlts(ins, st, alts, end)
    ensures var e := st + BranchSize(alts.b);
            && CodeBranch(ins, st, alts.b)
            && if alts.Last? then e == end && AltsOffsets(alts, st) == BranchOffsets(alts.b, st)
               else && e < |ins| && CodeAlts(ins, e + 3, alts.rest, end)
                    && AltsOffsets(alts, st) == BranchOffsets(alts.b, st) + {e} + AltsOffsets(alts.rest, e + 3)
                    && Leads(ins[e], e, AltsOffsets(alts, st) + {end})
  {
    hide CodeBranch, BranchOffsets;
    var e := st + BranchSize(alts.b);
    if alts.More? {
      StartsAreOffsets(ins, alts.rest, e + 3, end, e + 3);
    }
  }

  lemma {:induction false} AltsLead(ins: seq<Instr>, alts: Alts, st: nat, end: nat, o: nat)
    requires CodeAlts(ins, st, alts, end) && o in AltsOffsets(alts, st)
    ensures o < |ins| && Leads(ins[o], o, AltsOffsets(alts, st) + {end})
    decreases alts
  {
    hide CodeAlts, CodeBranch, Leads, AltsOffsets, BranchOffsets, BranchSize;
    var e := st + BranchSize(alts.b);
    var all := AltsOffsets(alts, st) + {end};
    AltParts(ins, alts, st, end);
    if o in BranchOffsets(alts.b, st) {
      BranchLeads(ins, alts.b, st, o);
      LeadsMono(ins[o], o, BranchOffsets(alts.b, st) + {e}, all);
    } else if o != e {
      AltsLead(ins, alts.rest, e + 3, end, o);
      LeadsMono(ins[o], o, AltsOffsets(alts.rest, e + 3) + {end}, all);
    }
  }

  /** The instructions of a program lead only to instructions of the program. */
  lemma ProgramIsClosed(x: PlainLinks, code: seq<byte>, root: Item)
    requires IsProgram(x, code, root)
    ensures Closed(code, AllOffsets(root))
  {
    hide LayItem, CodeItem, Leads, Decode, Offsets;
    FirstOffset(root, 0);
    ProgramDecodes(x, code, root);
    forall o: nat | o in Offsets(root, 0) ensures o < |code| && Leads(Decode(code, o), o, AllOffsets(root)) {
      ItemLeads(Decoded(code), root, 0, o);
      DecodedToAt(code, |code|, o);
    }
  }

  lemma ProgramDecodes(x: PlainLinks, code: seq<byte>, root: Item)
    requires IsProgram(x, code, root)
    ensures CodeItem(Decoded(code), 0, root)
  {
    hide LayItem, CodeItem, Decode;
    ProgramTargets(x, code, root);
    ItemDecodes(x, code, 0, root);
  }
}
