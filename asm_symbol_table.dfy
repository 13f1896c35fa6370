/** The assembler's symbol table: the predefined symbols, labels bound by
    the first pass, and variables given RAM addresses from 16 upward as the
    second pass meets them. */
module AsmSymbolTable {
  import opened Text

  /** The table's state: the bindings and the next free variable address. */
  datatype Symbols = Symbols(table: map<string, int>, next: int)

  /** The symbols bound before the registers are added. */
  const Predefined: map<string, int> := map[
    "SP" := 0, "LCL" := 1, "ARG" := 2, "THIS" := 3, "THAT" := 4,
    "SCREEN" := 16384, "KBD" := 24567]

  /** The address the first variable gets. */
  const FirstVariable := 16

  /** The number of registers `R0` .. `R15`. */
  const RegisterCount: nat := 16

  /** `'R' + str(i)`. */
  function RegisterName(i: nat): (r: string)
    ensures r != [] && r[0] == 'R' && r[1..] == DecimalString(i)
  {
    "R" + DecimalString(i)
  }

  /** The table after binding `R0` .. `R(n-1)` to `0` .. `n-1` over `t`. */
  function WithRegisters(t: map<string, int>, n: nat): map<string, int> {
    if n == 0 then t else WithRegisters(t, n - 1)[RegisterName(n - 1) := n - 1]
  }

  /** The table `SymbolTable()` starts with. */
  function InitialTable(): map<string, int> {
    WithRegisters(Predefined, RegisterCount)
  }

  /** Register names differ for different numbers. */
  lemma RegisterNameInjective(i: nat, j: nat)
    requires RegisterName(i) == RegisterName(j)
    ensures i == j
  {
    assert DecimalString(i) == RegisterName(i)[1..];
    DecimalInjective(i, j);
  }

  /** After adding `n` registers, `Ri` names `i` for every `i < n`, and every
      other symbol is bound as in `t`. */
  lemma {:induction false} WithRegistersBinds(t: map<string, int>, n: nat, s: string)
    ensures (exists i :: 0 <= i < n && s == RegisterName(i)) ==> s in WithRegisters(t, n)
    ensures forall i :: 0 <= i < n && s == RegisterName(i) ==> WithRegisters(t, n)[s] == i
    ensures (forall i :: 0 <= i < n ==> s != RegisterName(i)) ==>
      (s in WithRegisters(t, n) <==> s in t) && (s in t ==> WithRegisters(t, n)[s] == t[s])
  {
    if n > 0 {
      WithRegistersBinds(t, n - 1, s);
      forall i | 0 <= i < n && s == RegisterName(i)
        ensures WithRegisters(t, n)[s] == i
      {
        if s == RegisterName(n - 1) {
          RegisterNameInjective(i, n - 1);
        }
      }
    }
  }

  /** The initial table: the five pointers, the screen and keyboard (24567
      as written), and `R0` .. `R15`; nothing else. */
  lemma InitialTableFacts(s: string)
    ensures s in InitialTable() <==> s in Predefined || exists i :: 0 <= i < RegisterCount && s == RegisterName(i)
    ensures s in Predefined ==> InitialTable()[s] == Predefined[s]
    ensures forall i :: 0 <= i < RegisterCount && s == RegisterName(i) ==> InitialTable()[s] == i
  {
    WithRegistersBinds(Predefined, RegisterCount, s);
    if s in Predefined {
      forall i | 0 <= i < RegisterCount
        ensures s != RegisterName(i)
      {
        PredefinedNotRegister(s, i);
      }
    }
  }

  lemma PredefinedNotRegister(s: string, i: nat)
    requires s in Predefined
    ensures s != RegisterName(i)
  {
    assert s[0] != 'R';
  }

  /** The initial state: the initial table, and variables from 16. */
  function Initial(): Symbols {
    Symbols(InitialTable(), FirstVariable)
  }

  /** `add_entry`: binds the symbol, replacing an earlier binding. */
  function Bind(st: Symbols, symbol: string, address: int): (r: Symbols)
    ensures symbol in r.table && r.table[symbol] == address && r.next == st.next
    ensures forall s :: s != symbol ==> (s in r.table <==> s in st.table)
    ensures forall s :: s != symbol && s in st.table ==> r.table[s] == st.table[s]
  {
    st.(table := st.table[symbol := address])
  }

  /** What `get_address` returns, and the table after it. */
  datatype Resolved = Resolved(address: int, symbols: Symbols)

  /** `get_address`: a known symbol's address, or else the next free
      address, which the symbol is then bound to. */
  function Resolve(st: Symbols, symbol: string): Resolved {
    if symbol in st.table then Resolved(st.table[symbol], st)
    else Resolved(st.next, Symbols(st.table[symbol := st.next], st.next + 1))
  }

  /** A known symbol: its address, and nothing changes. */
  lemma ResolveKnown(st: Symbols, symbol: string)
    requires symbol in st.table
    ensures Resolve(st, symbol).address == st.table[symbol]
    ensures Resolve(st, symbol).symbols == st
  {
  }

  /** An unknown symbol: the next free address, now bound to it; the next
      free address moves up by one, and no other symbol changes. */
  lemma ResolveFresh(st: Symbols, symbol: string)
    requires symbol !in st.table
    ensures var r := Resolve(st, symbol);
      && r.address == st.next && r.symbols.next == st.next + 1
      && r.symbols.table.Keys == st.table.Keys + {symbol}
      && r.symbols.table[symbol] == r.address
      && forall s :: s in st.table ==> r.symbols.table[s] == st.table[s]
  {
  }

  /** Asking twice gives the same address, and the second time changes
      nothing. */
  lemma ResolveIdempotent(st: Symbols, symbol: string)
    ensures var r := Resolve(st, symbol);
      Resolve(r.symbols, symbol) == Resolved(r.address, r.symbols)
  {
  }

  /** Two different variables met in turn get different addresses, one
      after the other. */
  lemma ResolveDistinct(st: Symbols, s: string, t: string)
    requires s !in st.table && t !in st.table && s != t
    ensures var r := Resolve(st, s);
      Resolve(r.symbols, t).address == r.address + 1
  {
  }

  /** The symbol table as the assembler keeps it: a dictionary and a
      counter, both updated in place. */
  class SymbolTable {
    var table: map<string, int>
    var nextAddress: int

    /** The state as a value. */
    function State(): Symbols
      reads this
    {
      Symbols(table, nextAddress)
    }

    /** The predefined symbols, then `R0` .. `R15` added in a loop. */
    constructor ()
      ensures State() == Initial()
    {
      table := Predefined;
      nextAddress := FirstVariable;
      new;
      var i := 0;
      while i < RegisterCount
        invariant 0 <= i <= RegisterCount
        invariant table == WithRegisters(Predefined, i) && nextAddress == FirstVariable
      {
        table := table[RegisterName(i) := i];
        i := i + 1;
      }
    }

    method AddEntry(symbol: string, address: int)
      modifies this
      ensures State() == Bind(old(State()), symbol, address)
    {
      table := table[symbol := address];
    }

    /** `contains`. */
    function Contains(symbol: string): (r: bool)
      reads this
      ensures r <==> symbol in State().table
    {
      symbol in table.Keys
    }

    method GetAddress(symbol: string) returns (address: int)
      modifies this
      ensures Resolved(address, State()) == Resolve(old(State()), symbol)
    {
      if Contains(symbol) {
        address := table[symbol];
      } else {
        address := nextAddress;
        table := table[symbol := address];
        nextAddress := nextAddress + 1;
      }
    }
  }
}
