/** The jlight bytecode instruction set (`bytecode/instructions.rs`) and what
    the register allocator is told about each instruction: its branch
    targets, the registers it defines, modifies and uses, and how its
    register fields are rewritten once registers are allocated. */
module BytecodeInsns {
  import opened Wrappers
  import opened RegallocRegs

  type u16 = x: int | 0 <= x < 0x1_0000
  type u64 = x: int | 0 <= x < 0x1_0000_0000_0000_0000

  /** The eighteen three-register operations, which every consumer of the
      instruction set treats alike apart from what they compute. */
  datatype BinOp =
    | Add | Sub | Div | Mod | Mul | Shr | Shl
    | Greater | Less | GreaterEqual | LessEqual | Equal | NotEqual
    | And | Or | Xor | BoolAnd | BoolOr

  /** `Instruction`; the three-register operations are grouped under
      `Binary`. */
  datatype Instruction =
    | Load(u32, u32, u32)
    | Store(u32, u32, u32)
    | LoadInt(u32, u64)
    | LoadNull(u32)
    | LoadBool(u32, bool)
    | LoadNum(u32, u64)
    | LoadConst(u32, u32)
    | LoadGlobal(u32, u32)
    | LoadThis(u32)
    | LoadStatic(u32, u32)
    | LoadU(u32, u32)
    | StoreU(u32, u32)
    | Construct(u32, u32, u32)
    | ConstructArray(u32, u32)
    | Call(u32, u32, u32)
    | VirtCall(u32, u32, u32, u32)
    | TailCall(u32, u32, u32)
    | Return(Option<u32>)
    | MakeEnv(u32, u32)
    | Push(u32)
    | Pop(u32)
    | StoreStack(u32, u16)
    | LoadStack(u32, u16)
    | Goto(u16)
    | GotoIfFalse(u32, u16)
    | GotoIfTrue(u32, u16)
    | ConditionalGoto(u32, u16, u16)
    | Binary(op: BinOp, u32, u32, u32)
    | Not(u32, u32)
    | CatchBlock(u32, u32)
    | Move(u32, u32)
    | Safepoint
    | UnfinishedGoto(string)
    | UnfinishedGotoF(u32, string)
    | UnfinishedGotoT(u32, string)

  // ---------------------------------------------------------------------------
  // get_targets

  /** `get_targets`: the blocks a terminator may jump to. */
  function GetTargets(i: Instruction): (t: seq<nat>)
    ensures |t| <= 2
  {
    match i
    case Goto(x) => [x]
    case GotoIfFalse(_, x) => [x]
    case GotoIfTrue(_, x) => [x]
    case ConditionalGoto(_, x, y) => [x, y]
    case _ => []
  }

  predicate IsJump(i: Instruction)
  {
    i.Goto? || i.GotoIfFalse? || i.GotoIfTrue? || i.ConditionalGoto?
  }

  /** Only the four jumps have targets: one each for the single-target
      jumps, the true target then the false target for `ConditionalGoto`. */
  lemma TargetsOfJumps(i: Instruction)
    ensures GetTargets(i) != [] <==> IsJump(i)
    ensures i.ConditionalGoto? ==> |GetTargets(i)| == 2
    ensures IsJump(i) && !i.ConditionalGoto? ==> |GetTargets(i)| == 1
  {
  }

  // ---------------------------------------------------------------------------
  // Register operands: the table behind get_reg_usage and map_regs_d_u

  /** How `get_reg_usage` reports a register operand. */
  datatype Role = Defined | Modified | Used

  /** Which map `map_regs_d_u` rewrites a register operand through. */
  datatype MapVia = ViaDefs | ViaUses

  /** A register operand: its number, the set `get_reg_usage` puts it in and
      the map `map_regs_d_u` rewrites it through. */
  datatype Operand = Operand(reg: u32, role: Role, via: MapVia)

  function Def(r: u32): Operand { Operand(r, Defined, ViaDefs) }
  function Use(r: u32): Operand { Operand(r, Used, ViaUses) }
  function Mod(r: u32): Operand { Operand(r, Modified, ViaUses) }

  /** The register operands of each instruction in field order. The role
      column is `get_reg_usage`'s arm for the instruction, the map column is
      `map_regs_d_u`'s; the two functions are written separately in the
      source and disagree only on `StoreU`. */
  function Operands(i: Instruction): seq<Operand>
  {
    match i
    case Load(x, y, z) => [Def(x), Use(y), Use(z)]
    case Store(x, y, z) => [Mod(x), Use(y), Use(z)]
    case LoadInt(r, _) => [Def(r)]
    case LoadNull(r) => [Def(r)]
    case LoadBool(r, _) => [Def(r)]
    case LoadNum(r, _) => [Def(r)]
    case LoadConst(r, _) => [Def(r)]
    case LoadGlobal(r, _) => [Def(r)]
    case LoadThis(r) => [Def(r)]
    case LoadStatic(r, _) => [Def(r)]
    case LoadU(r, _) => [Def(r)]
    case StoreU(r, _) => [Operand(r, Defined, ViaUses)]
    case Construct(r0, r1, _) => [Def(r0), Use(r1)]
    case ConstructArray(r0, _) => [Def(r0)]
    case Call(r0, r1, _) => [Def(r0), Use(r1)]
    case VirtCall(r0, r1, r2, _) => [Def(r0), Use(r1), Use(r2)]
    case TailCall(r0, r1, _) => [Def(r0), Use(r1)]
    case Return(r) => if r.Some? then [Use(r.value)] else []
    case MakeEnv(r0, _) => [Mod(r0)]
    case Push(r0) => [Use(r0)]
    case Pop(r0) => [Def(r0)]
    case StoreStack(r, _) => [Use(r)]
    case LoadStack(r, _) => [Def(r)]
    case GotoIfFalse(r, _) => [Use(r)]
    case GotoIfTrue(r, _) => [Use(r)]
    case ConditionalGoto(r, _, _) => [Use(r)]
    case Binary(_, r0, r1, r2) => [Def(r0), Use(r1), Use(r2)]
    case Not(r0, r1) => [Def(r0), Use(r1)]
    case Move(r0, r1) => [Def(r0), Use(r1)]
    case _ => []
  }

  function RegFields(i: Instruction): (rs: seq<u32>)
    ensures |rs| == |Operands(i)|
  {
    var ops := Operands(i);
    seq(|ops|, k requires 0 <= k < |ops| => ops[k].reg)
  }

  /** Replaces the register operands, in field order, leaving every other
      field as it is. */
  function WithRegFields(i: Instruction, rs: seq<u32>): Instruction
    requires |rs| == |Operands(i)|
  {
    match i
    case Load(_, _, _) => Load(rs[0], rs[1], rs[2])
    case Store(_, _, _) => Store(rs[0], rs[1], rs[2])
    case LoadInt(_, v) => LoadInt(rs[0], v)
    case LoadNull(_) => LoadNull(rs[0])
    case LoadBool(_, b) => LoadBool(rs[0], b)
    case LoadNum(_, v) => LoadNum(rs[0], v)
    case LoadConst(_, c) => LoadConst(rs[0], c)
    case LoadGlobal(_, g) => LoadGlobal(rs[0], g)
    case LoadThis(_) => LoadThis(rs[0])
    case LoadStatic(_, s) => LoadStatic(rs[0], s)
    case LoadU(_, u) => LoadU(rs[0], u)
    case StoreU(_, u) => StoreU(rs[0], u)
    case Construct(_, _, n) => Construct(rs[0], rs[1], n)
    case ConstructArray(_, n) => ConstructArray(rs[0], n)
    case Call(_, _, n) => Call(rs[0], rs[1], n)
    case VirtCall(_, _, _, n) => VirtCall(rs[0], rs[1], rs[2], n)
    case TailCall(_, _, n) => TailCall(rs[0], rs[1], n)
    case Return(r) => if r.Some? then Return(Some(rs[0])) else i
    case MakeEnv(_, n) => MakeEnv(rs[0], n)
    case Push(_) => Push(rs[0])
    case Pop(_) => Pop(rs[0])
    case StoreStack(_, s) => StoreStack(rs[0], s)
    case LoadStack(_, s) => LoadStack(rs[0], s)
    case GotoIfFalse(_, t) => GotoIfFalse(rs[0], t)
    case GotoIfTrue(_, t) => GotoIfTrue(rs[0], t)
    case ConditionalGoto(_, t, f) => ConditionalGoto(rs[0], t, f)
    case Binary(op, _, _, _) => Binary(op, rs[0], rs[1], rs[2])
    case Not(_, _) => Not(rs[0], rs[1])
    case Move(_, _) => Move(rs[0], rs[1])
    case _ => i
  }

  /** Replacing the register operands sets exactly them: they read back as
      given with their roles unchanged, putting the old ones back restores
      the instruction, and the targets do not change. */
  lemma WithRegFieldsMeaning(i: Instruction, rs: seq<u32>)
    requires |rs| == |Operands(i)|
    ensures RegFields(WithRegFields(i, rs)) == rs
    ensures forall k :: 0 <= k < |rs| ==>
      Operands(WithRegFields(i, rs))[k] == Operands(i)[k].(reg := rs[k])
    ensures WithRegFields(WithRegFields(i, rs), RegFields(i)) == i
    ensures GetTargets(WithRegFields(i, rs)) == GetTargets(i)
  {
  }

  // ---------------------------------------------------------------------------
  // get_reg_usage

  /** The three sets `get_reg_usage` returns. */
  datatype RegUsage = RegUsage(defined: set<Reg>, modified: set<Reg>, used: set<Reg>)

  function RoleSet(u: RegUsage, role: Role): set<Reg>
  {
    match role
    case Defined => u.defined
    case Modified => u.modified
    case Used => u.used
  }

  /** The register a number stands for: a virtual `I64` register before
      allocation (which panics past 28 bits), a real `I64` register with
      hardware encoding 1 after it (the number cast to `u8`). */
  function MkReg(v: u32, isMapped: bool): (r: Result<Reg>)
    ensures r.Success? <==> isMapped || v < VIRTUAL_INDEX_LIMIT
    ensures r.Success? ==> IsReal(r.value) == isMapped && GetClass(r.value) == Success(I64)
    ensures r.Success? ==> GetIndex(r.value) == if isMapped then v % 256 else v
  {
    if !isMapped then NewVirtual(I64, v) else Success(NewReal(I64, 1, v % 256))
  }

  /** Inserts `r` into the set of `role`. */
  function Insert(u: RegUsage, role: Role, r: Reg): RegUsage
  {
    match role
    case Defined => u.(defined := u.defined + {r})
    case Modified => u.(modified := u.modified + {r})
    case Used => u.(used := u.used + {r})
  }

  /** Inserts each operand's register into the set of its role, panicking on
      the first that names no register. */
  function UsageOf(ops: seq<Operand>, isMapped: bool): Result<RegUsage>
  {
    if ops == [] then Success(RegUsage({}, {}, {}))
    else
      var r :- MkReg(ops[0].reg, isMapped);
      var rest :- UsageOf(ops[1..], isMapped);
      Success(Insert(rest, ops[0].role, r))
  }

  /** `get_reg_usage`; `isMapped` is the global flag `map_regs` sets. */
  function GetRegUsage(i: Instruction, isMapped: bool): Result<RegUsage>
  {
    UsageOf(Operands(i), isMapped)
  }

  /** `get_reg_usage` panics exactly when it runs before allocation and some
      operand does not fit in 28 bits. */
  lemma {:induction false} UsageSucceeds(ops: seq<Operand>, isMapped: bool)
    ensures UsageOf(ops, isMapped).Success? <==>
      (isMapped || forall k :: 0 <= k < |ops| ==> ops[k].reg < VIRTUAL_INDEX_LIMIT)
  {
    if ops != [] {
      UsageSucceeds(ops[1..], isMapped);
      if !isMapped && forall k :: 0 <= k < |ops| - 1 ==> ops[1..][k].reg < VIRTUAL_INDEX_LIMIT {
        forall k | 1 <= k < |ops| ensures ops[k].reg < VIRTUAL_INDEX_LIMIT {
          assert ops[k] == ops[1..][k - 1];
        }
      }
    }
  }

  /** Some operand with role `role` names register `r`. */
  predicate HasOperand(ops: seq<Operand>, isMapped: bool, role: Role, r: Reg)
  {
    exists k :: 0 <= k < |ops| && ops[k].role == role && MkReg(ops[k].reg, isMapped) == Success(r)
  }

  lemma HasOperandCons(ops: seq<Operand>, isMapped: bool, role: Role, r: Reg)
    requires ops != []
    ensures HasOperand(ops, isMapped, role, r) <==>
      (ops[0].role == role && MkReg(ops[0].reg, isMapped) == Success(r)) || HasOperand(ops[1..], isMapped, role, r)
  {
    if HasOperand(ops, isMapped, role, r) {
      var k :| 0 <= k < |ops| && ops[k].role == role && MkReg(ops[k].reg, isMapped) == Success(r);
      if k > 0 {
        assert ops[1..][k - 1] == ops[k];
      }
    }
    if HasOperand(ops[1..], isMapped, role, r) {
      var k :| 0 <= k < |ops| - 1 && ops[1..][k].role == role && MkReg(ops[1..][k].reg, isMapped) == Success(r);
      assert ops[k + 1] == ops[1..][k];
    }
  }

  /** A register is in the set of a role exactly when some operand with that
      role names it. */
  lemma {:induction false} UsageMembers(ops: seq<Operand>, isMapped: bool, role: Role, r: Reg)
    requires UsageOf(ops, isMapped).Success?
    ensures r in RoleSet(UsageOf(ops, isMapped).value, role) <==> HasOperand(ops, isMapped, role, r)
  {
    if ops != [] {
      UsageMembers(ops[1..], isMapped, role, r);
      HasOperandCons(ops, isMapped, role, r);
    }
  }

  const NoRegs := RegUsage({}, {}, {})

  lemma UsageOfOne(o: Operand, isMapped: bool)
    requires MkReg(o.reg, isMapped).Success?
    ensures UsageOf([o], isMapped) == Success(Insert(NoRegs, o.role, MkReg(o.reg, isMapped).value))
  {
    assert [o][1..] == [];
  }

  lemma UsageOfThree(o0: Operand, o1: Operand, o2: Operand, isMapped: bool)
    requires MkReg(o0.reg, isMapped).Success? && MkReg(o1.reg, isMapped).Success? && MkReg(o2.reg, isMapped).Success?
    ensures UsageOf([o0, o1, o2], isMapped) ==
      Success(Insert(Insert(Insert(NoRegs, o2.role, MkReg(o2.reg, isMapped).value),
        o1.role, MkReg(o1.reg, isMapped).value), o0.role, MkReg(o0.reg, isMapped).value))
  {
    assert [o0, o1, o2][1..] == [o1, o2] && [o1, o2][1..] == [o2];
    UsageOfOne(o2, isMapped);
  }

  /** The three-register operations define their first operand and use the
      other two. */
  lemma BinaryUsage(op: BinOp, r0: u32, r1: u32, r2: u32, isMapped: bool)
    requires isMapped || (r0 < VIRTUAL_INDEX_LIMIT && r1 < VIRTUAL_INDEX_LIMIT && r2 < VIRTUAL_INDEX_LIMIT)
    ensures var u := GetRegUsage(Binary(op, r0, r1, r2), isMapped);
      u.Success? && u.value.defined == {MkReg(r0, isMapped).value} && u.value.modified == {} &&
      u.value.used == {MkReg(r1, isMapped).value, MkReg(r2, isMapped).value}
  {
    assert Operands(Binary(op, r0, r1, r2)) == [Def(r0), Use(r1), Use(r2)];
    UsageOfThree(Def(r0), Use(r1), Use(r2), isMapped);
  }

  /** `Store` modifies its object register and uses the key and value. */
  lemma StoreUsage(x: u32, y: u32, z: u32, isMapped: bool)
    requires isMapped || (x < VIRTUAL_INDEX_LIMIT && y < VIRTUAL_INDEX_LIMIT && z < VIRTUAL_INDEX_LIMIT)
    ensures var s := GetRegUsage(Store(x, y, z), isMapped);
      s.Success? && s.value.modified == {MkReg(x, isMapped).value} && s.value.defined == {} &&
      s.value.used == {MkReg(y, isMapped).value, MkReg(z, isMapped).value}
  {
    assert Operands(Store(x, y, z)) == [Mod(x), Use(y), Use(z)];
    UsageOfThree(Mod(x), Use(y), Use(z), isMapped);
  }

  /** A bare `Return` and a `Goto` mention no register. */
  lemma NoRegisterUsage(t: u16, isMapped: bool)
    ensures GetRegUsage(Return(None), isMapped) == Success(NoRegs)
    ensures GetRegUsage(Goto(t), isMapped) == Success(NoRegs)
  {
    assert Operands(Return(None)) == [] && Operands(Goto(t)) == [];
  }

  /** `MakeEnv` modifies its function register. */
  lemma MakeEnvUsage(x: u32, n: u32, isMapped: bool)
    requires isMapped || x < VIRTUAL_INDEX_LIMIT
    ensures GetRegUsage(MakeEnv(x, n), isMapped) == Success(RegUsage({}, {MkReg(x, isMapped).value}, {}))
  {
    assert Operands(MakeEnv(x, n)) == [Mod(x)];
    UsageOfOne(Mod(x), isMapped);
    var a := MkReg(x, isMapped).value;
    assert {} + {a} == {a};
  }

  // ---------------------------------------------------------------------------
  // map_regs_d_u

  /** One operand through one map: the operand names virtual register `v`
      of class `I64`, and the index of the real register allocated to it
      replaces it; a missing mapping panics on `unwrap`. */
  function MapOne(v: u32, m: map<VirtualReg, RealReg>): (r: Result<u32>)
    ensures r.Success? <==> v < VIRTUAL_INDEX_LIMIT && NewVirtual(I64, v).value in m
    ensures r.Success? ==> r.value == GetIndex(m[NewVirtual(I64, v).value]) && r.value < 256
  {
    var r :- NewVirtual(I64, v);
    var vr: VirtualReg := r;
    if vr !in m then Failure("called `Option::unwrap()` on a `None` value")
    else var index: u32 := GetIndex(m[vr]); Success(index)
  }

  function MapVia1(o: Operand, defs: map<VirtualReg, RealReg>, uses: map<VirtualReg, RealReg>): Result<u32>
  {
    if o.via == ViaDefs then MapOne(o.reg, defs) else MapOne(o.reg, uses)
  }

  /** Maps the operands in order, each through its own map, stopping at the
      first that panics. */
  function MapAll(ops: seq<Operand>, defs: map<VirtualReg, RealReg>, uses: map<VirtualReg, RealReg>): (r: Result<seq<u32>>)
    ensures r.Success? ==> |r.value| == |ops|
  {
    if ops == [] then Success([])
    else
      var a :- MapVia1(ops[0], defs, uses);
      var rest :- MapAll(ops[1..], defs, uses);
      Success([a] + rest)
  }

  /** `map_regs_d_u`: rewrites the register operands of the instruction
      (in place in the source, returned here). */
  function MapRegsDU(i: Instruction, defs: map<VirtualReg, RealReg>, uses: map<VirtualReg, RealReg>): Result<Instruction>
  {
    var ms :- MapAll(Operands(i), defs, uses);
    Success(WithRegFields(i, ms))
  }

  /** Each rewritten operand is what its own lookup gives. */
  predicate MappedAs(ops: seq<Operand>, rs: seq<u32>, defs: map<VirtualReg, RealReg>, uses: map<VirtualReg, RealReg>)
  {
    |rs| == |ops| && forall k :: 0 <= k < |ops| ==> MapVia1(ops[k], defs, uses) == Success(rs[k])
  }

  predicate AllMap(ops: seq<Operand>, defs: map<VirtualReg, RealReg>, uses: map<VirtualReg, RealReg>)
  {
    forall k :: 0 <= k < |ops| ==> MapVia1(ops[k], defs, uses).Success?
  }

  /** The rewrite of a list fails exactly when some operand's lookup does. */
  lemma {:induction false} MapAllSucceeds(ops: seq<Operand>, defs: map<VirtualReg, RealReg>, uses: map<VirtualReg, RealReg>)
    ensures MapAll(ops, defs, uses).Success? <==> AllMap(ops, defs, uses)
  {
    if ops != [] {
      MapAllSucceeds(ops[1..], defs, uses);
      assert MapAll(ops, defs, uses).Success? <==>
        MapVia1(ops[0], defs, uses).Success? && MapAll(ops[1..], defs, uses).Success?;
      AllMapCons(ops, defs, uses);
    }
  }

  lemma AllMapCons(ops: seq<Operand>, defs: map<VirtualReg, RealReg>, uses: map<VirtualReg, RealReg>)
    requires ops != []
    ensures AllMap(ops, defs, uses) <==> MapVia1(ops[0], defs, uses).Success? && AllMap(ops[1..], defs, uses)
  {
    if MapVia1(ops[0], defs, uses).Success? && AllMap(ops[1..], defs, uses) {
      forall k | 1 <= k < |ops| ensures MapVia1(ops[k], defs, uses).Success? {
        assert ops[k] == ops[1..][k - 1];
      }
    }
  }

  /** Operand `k` of a successful rewrite is the index of the real register
      its own map assigns to it. */
  lemma {:induction false} MapAllEach(ops: seq<Operand>, defs: map<VirtualReg, RealReg>, uses: map<VirtualReg, RealReg>)
    requires MapAll(ops, defs, uses).Success?
    ensures MappedAs(ops, MapAll(ops, defs, uses).value, defs, uses)
  {
    if ops != [] {
      MapAllEach(ops[1..], defs, uses);
      forall k | 1 <= k < |ops| ensures ops[k] == ops[1..][k - 1] { }
    }
  }

  /** After `map_regs_d_u` each register operand holds the index of the real
      register allocated to it by the map of its role, and nothing but the
      register operands changed; it panics exactly when some lookup does. */
  lemma MapRegsMeaning(i: Instruction, defs: map<VirtualReg, RealReg>, uses: map<VirtualReg, RealReg>)
    ensures MapRegsDU(i, defs, uses).Success? <==> AllMap(Operands(i), defs, uses)
    ensures MapRegsDU(i, defs, uses).Success? ==>
      var j := MapRegsDU(i, defs, uses).value;
      MappedAs(Operands(i), RegFields(j), defs, uses) &&
      WithRegFields(j, RegFields(i)) == i && GetTargets(j) == GetTargets(i)
  {
    var ops := Operands(i);
    MapAllSucceeds(ops, defs, uses);
    var ms := MapAll(ops, defs, uses);
    if ms.Success? {
      MapAllEach(ops, defs, uses);
      WithRegFieldsMeaning(i, ms.value);
    }
  }

  // ---------------------------------------------------------------------------
  // The two columns against each other

  /** An operand reported as defined is rewritten through the define-map,
      and one reported as used or modified through the use-map. */
  predicate Agrees(o: Operand)
  {
    o.role == Defined <==> o.via == ViaDefs
  }

  /** `StoreU(r, u)` reads register `r` (the interpreter copies it into
      upvalue `u`) and `map_regs_d_u` rewrites it through the use-map, yet
      `get_reg_usage` reports it as defined and not as used. */
  lemma StoreUReportedDefined(r: u32, u: u32)
    requires r < VIRTUAL_INDEX_LIMIT
    ensures GetRegUsage(StoreU(r, u), false) == Success(RegUsage({NewVirtual(I64, r).value}, {}, {}))
    ensures !Agrees(Operands(StoreU(r, u))[0])
  {
    assert Operands(StoreU(r, u)) == [Operand(r, Defined, ViaUses)];
    UsageOfOne(Operand(r, Defined, ViaUses), false);
    var a := NewVirtual(I64, r).value;
    assert {} + {a} == {a};
  }

  /** The operand table with `StoreU`'s register reported as used. */
  function OperandsCorrected(i: Instruction): (ops: seq<Operand>)
    ensures |ops| == |Operands(i)|
  {
    match i
    case StoreU(r, _) => [Use(r)]
    case _ => Operands(i)
  }

  /** `get_reg_usage` with `StoreU` corrected. */
  function GetRegUsageCorrected(i: Instruction, isMapped: bool): Result<RegUsage>
  {
    UsageOf(OperandsCorrected(i), isMapped)
  }

  /** The correction changes no operand and no map, only `StoreU`'s role;
      with it every operand's reported role agrees with the map it is
      rewritten through. */
  lemma CorrectedRolesAgree(i: Instruction)
    ensures forall k :: 0 <= k < |Operands(i)| ==>
      OperandsCorrected(i)[k].reg == Operands(i)[k].reg &&
      OperandsCorrected(i)[k].via == Operands(i)[k].via &&
      Agrees(OperandsCorrected(i)[k])
    ensures !i.StoreU? ==> GetRegUsageCorrected(i, false) == GetRegUsage(i, false)
  {
  }
}
