/** Interface, port and module names (cmd/oopt/main.go, cmd/oopt/sonic.go, pkg/sonic/interface.go). */
module Names {
  import opened Wrappers
  import opened Text

  datatype NameError = InvalidName | NotANumber | NilModule | SliceOutOfRange

  function PortName(n: nat): string {
    "Port" + Print(n)
  }

  function ModuleName(n: nat): string {
    "Opt" + Print(n)
  }

  function EthernetName(n: nat): string {
    "Ethernet" + Print(n)
  }

  /** The interface of an unbroken port (sub == 0) or of one of its breakout channels (sub >= 1). */
  function InterfaceName(port: nat, sub: nat): string {
    if sub == 0 then EthernetName(port) else EthernetName(port) + "_" + Print(sub)
  }

  /** How the rebuild reads an interface name: (main index, sub index). */
  function ParseInterfaceName(k: string): Result<(int, int), NameError> {
    if !HasPrefix(k, "Ethernet") then Err(InvalidName)
    else
      var elems := Split(k[|"Ethernet"|..], '_');
      if |elems| > 2 then Err(InvalidName)
      else if Atoi(elems[0]) == None then Err(NotANumber)
      else if |elems| == 1 then Ok((Atoi(elems[0]).value, 0))
      else if Atoi(elems[1]) == None then Err(NotANumber)
      else Ok((Atoi(elems[0]).value, Atoi(elems[1]).value))
  }

  /** The hardware lane of an interface with the given indices. */
  function Lane(main: int, sub: int): int {
    if sub == 0 then main else 32 + 4 * (main - 1) + sub
  }

  /** Names as they are written in files and databases. */
  lemma {:induction false} NamesRead()
    ensures PortName(16) == "Port16" && ModuleName(8) == "Opt8" && EthernetName(1) == "Ethernet1"
    ensures InterfaceName(1, 0) == "Ethernet1" && InterfaceName(10, 4) == "Ethernet10_4" && EthernetName(32) == "Ethernet32"
  {
    assert Print(1) == "1" && Print(3) == "3" && Print(16) == "16" && Print(10) == "10" && Print(32) == "32";
  }

  /** Reading a printed name gives back the indices it was printed from. */
  lemma ParsePrintedName(port: nat, sub: nat)
    ensures ParseInterfaceName(InterfaceName(port, sub)) == Ok((port as int, sub as int))
  {
    var k := InterfaceName(port, sub);
    AtoiPrint(port);
    AtoiPrint(sub);
    DigitsHoldNo(Print(port), '_');
    DigitsHoldNo(Print(sub), '_');
    if sub == 0 {
      assert k[|"Ethernet"|..] == Print(port);
      SplitPlain(Print(port), '_');
    } else {
      assert k[|"Ethernet"|..] == Print(port) + ['_'] + Print(sub);
      SplitAt(Print(port), Print(sub), '_');
      SplitPlain(Print(sub), '_');
    }
  }

  lemma DigitsHoldNo(s: string, c: char)
    requires AllDigits(s) && !IsDigit(c)
    ensures c !in s
  {
  }

  /** Two interfaces never share a name. */
  lemma InterfaceNameInjective(p: nat, s: nat, q: nat, t: nat)
    requires InterfaceName(p, s) == InterfaceName(q, t)
    ensures p == q && s == t
  {
    ParsePrintedName(p, s);
    ParsePrintedName(q, t);
  }

  lemma PortNameInjective(p: nat, q: nat)
    requires PortName(p) == PortName(q)
    ensures p == q
  {
    assert PortName(p)[|"Port"|..] == Print(p) && PortName(q)[|"Port"|..] == Print(q);
    PrintInjective(p, q);
  }

  lemma ModuleNameInjective(p: nat, q: nat)
    requires ModuleName(p) == ModuleName(q)
    ensures p == q
  {
    assert ModuleName(p)[|"Opt"|..] == Print(p) && ModuleName(q)[|"Opt"|..] == Print(q);
    PrintInjective(p, q);
  }

  /** The test the channel-speed command uses to find the interfaces of a port. */
  predicate BelongsTo(k: string, ethName: string) {
    k == ethName || HasPrefix(k, ethName + "_")
  }

  /** The prefix test selects exactly the interfaces of the port: Ethernet1 does not select Ethernet10 or Ethernet10_1. */
  lemma BelongsToSelectsPort(n: nat, port: nat, sub: nat)
    ensures BelongsTo(InterfaceName(port, sub), EthernetName(n)) <==> port == n
  {
    var k := InterfaceName(port, sub);
    var tail := if sub == 0 then "" else "_" + Print(sub);
    assert k == "Ethernet" + (Print(port) + tail);
    if k == EthernetName(n) {
      InterfaceNameInjective(port, sub, n, 0);
    } else if HasPrefix(k, EthernetName(n) + "_") {
      var rest := k[|EthernetName(n)|..];
      assert EthernetName(n) + rest == k;
      assert rest[0] == (EthernetName(n) + "_")[|EthernetName(n)|];
      assert k == "Ethernet" + (Print(n) + rest);
      assert k[|"Ethernet"|..] == Print(port) + tail == Print(n) + rest;
      DigitsSplitUniquely(Print(port), Print(n), tail, rest);
      PrintInjective(port, n);
    }
    if port == n && sub != 0 {
      assert k == EthernetName(n) + "_" + Print(sub);
      assert EthernetName(n) + "_" <= k;
    }
  }

  /** The endpoint of a connection on the line side: an optical module and one of its channels. */
  datatype Endpoint = Endpoint(name: Option<string>, channel: Option<string>)

  /** sonic.OptEthernetName: the switch port behind a module channel. */
  function OptEthernetName(m: Option<Endpoint>): Result<string, NameError> {
    if m.None? || m.value.name.None? || m.value.channel.None? then Err(NilModule)
    else
      var name := m.value.name.value;
      if |name| < |"Opt"| then Err(SliceOutOfRange)
      else match Atoi(name[|"Opt"|..])
        case None => Err(NotANumber)
        case Some(index) =>
          var sub := if m.value.channel.value == "B" then 1 else 0;
          Ok("Ethernet" + PrintInt(2 * index - 1 + sub + 16))
  }

  /** Module n, channel "A" or "B", sits behind this front panel index. */
  function LinePort(n: nat, channel: string): int {
    2 * n - 1 + (if channel == "B" then 1 else 0) + 16
  }

  lemma OptEthernetNameOf(n: nat, channel: string)
    requires n >= 1
    ensures LinePort(n, channel) >= 17
    ensures OptEthernetName(Some(Endpoint(Some(ModuleName(n)), Some(channel)))) == Ok(EthernetName(LinePort(n, channel)))
  {
    assert ModuleName(n)[|"Opt"|..] == Print(n);
    AtoiPrint(n);
  }

  /** Distinct module channels sit behind distinct switch ports. */
  lemma LinePortInjective(n: nat, c: string, m: nat, d: string)
    requires c in {"A", "B"} && d in {"A", "B"}
    requires LinePort(n, c) == LinePort(m, d)
    ensures n == m && c == d
  {
  }
}
