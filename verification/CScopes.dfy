/** The static rules of C that an emitted program must meet to compile: declaration before use, kinds, names. */
module CScopes {
  import opened CTarget
  import opened CStrings

  datatype Kind = NUMBER | ARRAY

  /** What a place in the text sees: the variables in scope, the names its own block has declared, and the functions
      defined above it with their numbers of parameters. */
  datatype Scope = Scope(vars: map<string, Kind>, here: set<string>, fns: map<string, nat>)
  {
    function Declare(name: string, kind: Kind): Scope
    {
      this.(vars := vars[name := kind], here := here + {name})
    }

    function Define(name: string, arity: nat): Scope
    {
      this.(fns := fns[name := arity], here := here + {name})
    }

    /** A block inside: everything is still seen, and any name may be declared again. */
    function Inner(): Scope
    {
      this.(here := {})
    }

    /** The emitted declarations start with `i32`, which a variable of that name hides. */
    predicate Declarable(name: string)
    {
      name !in here && !IsKeyword(name) && "i32" !in vars
    }

    predicate IsArray(name: string)
    {
      name in vars && vars[name] == ARRAY
    }
  }

  // The first decimal constant without a type, and the number of words of the smallest array too large for a 32-bit
  // address space.
  const FIRST_UNTYPED: int := 0x8000_0000_0000_0000
  const TOO_MANY_CELLS: int := 0x2000_0000

  /** The keywords of C17 (section 6.4.1 of ISO/IEC 9899:2018), and the two a GNU compiler adds without underscores. */
  const KEYWORDS :=
    ["auto", "break", "case", "char", "const", "continue", "default", "do", "double", "else", "enum", "extern",
     "float", "for", "goto", "if", "inline", "int", "long", "register", "restrict", "return", "short", "signed",
     "sizeof", "static", "struct", "switch", "typedef", "union", "unsigned", "void", "volatile", "while",
     "_Alignas", "_Alignof", "_Atomic", "_Bool", "_Complex", "_Generic", "_Imaginary", "_Noreturn",
     "_Static_assert", "_Thread_local"]

  const GNU_KEYWORDS := ["asm", "typeof"]

  predicate IsKeyword(name: string)
  {
    name in KEYWORDS || name in GNU_KEYWORDS
  }

  /** What the included header declares at file scope, and the entry point that closes the file. */
  const PROVIDED :=
    ["i8", "i16", "i32", "i64", "u8", "u16", "u32", "u64",
     "int8_t", "int16_t", "int32_t", "int64_t", "uint8_t", "uint16_t", "uint32_t", "uint64_t",
     "int_least8_t", "int_least16_t", "int_least32_t", "int_least64_t",
     "uint_least8_t", "uint_least16_t", "uint_least32_t", "uint_least64_t",
     "int_fast8_t", "int_fast16_t", "int_fast32_t", "int_fast64_t",
     "uint_fast8_t", "uint_fast16_t", "uint_fast32_t", "uint_fast64_t",
     "intptr_t", "uintptr_t", "intmax_t", "uintmax_t",
     "user_exit", "user_write", "user_write_cstr", "user_npu_gemm", "user_main"]

  predicate IsProvided(name: string)
  {
    name in PROVIDED
  }

  // ----- expressions -----

  predicate CExprOk(e: CExpr, s: Scope)
    decreases e, 1
  {
    match e
    case CInt(v) => 0 <= v < FIRST_UNTYPED
    case CVar(name) => name in s.vars && s.vars[name] == NUMBER
    case CIndex(name, index) => s.IsArray(name) && CExprOk(index, s)
    case CUnary(_, x) => CExprOk(x, s)
    case CBinary(_, x, y) => CExprOk(x, s) && CExprOk(y, s)
    case CCall(f, args) => f !in s.vars && f in s.fns && s.fns[f] == |args| && CArgsOk(args, s)
  }

  predicate CArgsOk(args: seq<CExpr>, s: Scope)
    decreases args, 0
  {
    args == [] || (CExprOk(args[0], s) && CArgsOk(args[1..], s))
  }

  // ----- statements -----

  /** The scope after a statement. */
  function CAfter(stmt: CStmt, s: Scope): Scope
  {
    match stmt
    case CArray(name, _, _) => s.Declare(name, ARRAY)
    case CDeclare(name, _) => s.Declare(name, NUMBER)
    case _ => s
  }

  /** A variable is in scope in its own initializer; only a variable or an array element can be assigned. */
  predicate CStmtOk(stmt: CStmt, s: Scope)
    decreases stmt, 1
  {
    match stmt
    case CArray(name, count, values) => s.Declarable(name) && CCellsOk(count, values)
    case CDeclare(name, value) => s.Declarable(name) && CExprOk(value, s.Declare(name, NUMBER))
    case CAssign(target, value) => (target.CVar? || target.CIndex?) && CExprOk(target, s) && CExprOk(value, s)
    case CGemm(a, b, c, m, n, k) =>
      && "user_npu_gemm" !in s.vars && s.IsArray(a) && s.IsArray(b) && s.IsArray(c)
      && 0 <= m < FIRST_UNTYPED && 0 <= n < FIRST_UNTYPED && 0 <= k < FIRST_UNTYPED
    case CPrint(literal) => "user_write_cstr" !in s.vars && Unescape(literal).Some? && '\n' !in literal
    case CIf(cond, thn, els) =>
      CExprOk(cond, s) && CItemsOk(thn, s.Inner()) && (els.CElseBlock? ==> CItemsOk(els.items, s.Inner()))
    case CWhile(cond, body) => CExprOk(cond, s) && CItemsOk(body, s.Inner())
    case CFor(start, test, step, body) =>
      var s' := if start.Some? then CAfter(start.value, s.Inner()) else s.Inner();
      && (start.Some? ==> (start.value.CDeclare? || IsCExpression(start.value)) && CStmtOk(start.value, s.Inner()))
      && (test.Some? ==> CExprOk(test.value, s'))
      && (step.Some? ==> IsCExpression(step.value) && CStmtOk(step.value, s'))
      && CItemsOk(body, s'.Inner())
    case CReturn(value) => CExprOk(value, s)
    case CExprStmt(expr) => if expr.CVar? then expr.name in s.vars else CExprOk(expr, s)
  }

  predicate CCellsOk(count: int, values: seq<int>)
  {
    0 < count < TOO_MANY_CELLS && |values| <= count && forall v :: v in values ==> -FIRST_UNTYPED < v < FIRST_UNTYPED
  }

  predicate IsCExpression(stmt: CStmt)
  {
    stmt.CAssign? || stmt.CExprStmt?
  }

  predicate CItemsOk(items: seq<CStmt>, s: Scope)
    decreases items, 0
  {
    items == [] || (CStmtOk(items[0], s) && CItemsOk(items[1..], CAfter(items[0], s)))
  }

  // ----- programs -----

  predicate CParamsOk(params: seq<string>, s: Scope)
  {
    params == [] || (s.Declarable(params[0]) && CParamsOk(params[1..], s.Declare(params[0], NUMBER)))
  }

  function CBindParams(params: seq<string>, s: Scope): Scope
  {
    if params == [] then s else CBindParams(params[1..], s.Declare(params[0], NUMBER))
  }

  predicate CFileName(name: string, s: Scope)
  {
    s.Declarable(name) && !IsProvided(name)
  }

  /** Static arrays, each declared below the ones before it. */
  predicate CGlobalsOk(globals: seq<CStmt>, s: Scope)
  {
    globals == [] || (
      && globals[0].CArray? && CFileName(globals[0].name, s) && CStmtOk(globals[0], s)
      && CGlobalsOk(globals[1..], CAfter(globals[0], s)))
  }

  function CAfterAll(items: seq<CStmt>, s: Scope): Scope
  {
    if items == [] then s else CAfterAll(items[1..], CAfter(items[0], s))
  }

  /** Functions see themselves and the ones above them: there are no prototypes. */
  predicate CFunctionsOk(functions: seq<CFunction>, s: Scope)
  {
    functions == [] || (
      var f := functions[0];
      var s' := s.Define(f.name, |f.params|);
      && CFileName(f.name, s) && CParamsOk(f.params, s'.Inner())
      && CItemsOk(f.body, CBindParams(f.params, s'.Inner())) && CFunctionsOk(functions[1..], s'))
  }

  function CDefineAll(functions: seq<CFunction>, s: Scope): Scope
  {
    if functions == [] then s else CDefineAll(functions[1..], s.Define(functions[0].name, |functions[0].params|))
  }

  /** The file compiles: arrays, then functions, then `user_main`. */
  predicate CProgramOk(p: CProgram)
  {
    var s := CAfterAll(p.globals, Scope(map[], {}, map[]));
    && CGlobalsOk(p.globals, Scope(map[], {}, map[])) && CFunctionsOk(p.functions, s)
    && CItemsOk(p.main, CDefineAll(p.functions, s).Inner())
  }
}
