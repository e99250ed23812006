/**
 * `setVideohubInput` (src/main.js): validation of the router address and
 * of the one-based crosspoint, and the routing block of the Blackmagic
 * Videohub Ethernet protocol that is piped to the router's port 9990.
 */
module Videohub {
  import opened Wrappers
  import opened Text
  import IpAddress

  const RoutingHeader: string := "VIDEO OUTPUT ROUTING:\r\n"
  const BlockEnd: string := "\r\n\r\n"
  const RouterPort: nat := 9990

  datatype RouteError = InvalidAddress | InvalidRange | CommandFailed

  /** The text of the error the promise is rejected with (a failed command rejects with the command's own error). */
  function Message(e: RouteError): string
  {
    match e
    case InvalidAddress => "Invalid IP address"
    case InvalidRange => "Invalid input/output range"
    case CommandFailed => "Command failed"
  }

  /** The routing block that sets zero-based `outputIndex` to zero-based `inputIndex`. */
  function RoutingBlock(outputIndex: nat, inputIndex: nat): string
  {
    RoutingHeader + NatToDecimal(outputIndex) + " " + NatToDecimal(inputIndex) + BlockEnd
  }

  /** Reads a routing block back: the zero-based (output, input) it sets. */
  function ParseRoutingBlock(block: string): Option<(nat, nat)>
  {
    if |block| < |RoutingHeader| + |BlockEnd|
       || block[..|RoutingHeader|] != RoutingHeader
       || block[|block| - |BlockEnd|..] != BlockEnd
    then None
    else
      var fields := Split(block[|RoutingHeader|..|block| - |BlockEnd|], ' ');
      if |fields| == 2 && fields[0] != [] && fields[1] != [] && AllDigits(fields[0]) && AllDigits(fields[1])
      then Some((DecimalValue(fields[0]), DecimalValue(fields[1])))
      else None
  }

  /** A routing block reads back as the crosspoint it was built for. */
  lemma RoutingBlockRoundTrip(outputIndex: nat, inputIndex: nat)
    ensures ParseRoutingBlock(RoutingBlock(outputIndex, inputIndex)) == Some((outputIndex, inputIndex))
  {
    var a, b := NatToDecimal(outputIndex), NatToDecimal(inputIndex);
    BlockParts(a, b);
    DecimalPair(a, b);
    DecimalRoundTrip(outputIndex);
    DecimalRoundTrip(inputIndex);
  }

  /** The block's header and end are where the parser looks, with the two numbers between. */
  lemma BlockParts(a: string, b: string)
    ensures var block := RoutingHeader + a + " " + b + BlockEnd;
      && |block| >= |RoutingHeader| + |BlockEnd|
      && block[..|RoutingHeader|] == RoutingHeader
      && block[|block| - |BlockEnd|..] == BlockEnd
      && block[|RoutingHeader|..|block| - |BlockEnd|] == a + " " + b
  {
    var block := RoutingHeader + a + " " + b + BlockEnd;
    assert block == RoutingHeader + (a + " " + b) + BlockEnd;
  }

  /** Two decimal numerals joined by a space split back into the two. */
  lemma DecimalPair(a: string, b: string)
    requires AllDigits(a) && AllDigits(b)
    ensures Split(a + " " + b, ' ') == [a, b]
  {
    assert Join([a, b], ' ') == a + " " + b by { assert [a, b][1..] == [b]; }
    assert ' ' !in a && ' ' !in b by {
      assert forall k :: 0 <= k < |a| ==> IsDigit(a[k]);
      assert forall k :: 0 <= k < |b| ==> IsDigit(b[k]);
    }
    SplitJoin([a, b], ' ');
  }

  /** The shell command that pipes `block` to the router with `nc`. */
  function ShellCommand(routerIP: string, block: string): string
  {
    "printf \"" + block + "\" | nc " + routerIP + " " + NatToDecimal(RouterPort)
  }

  datatype RoutingRequest = RoutingRequest(block: string, command: string)

  /**
   * The checks and the command building of `setVideohubInput`, in the
   * source's order: the address first, then the one-based ranges
   * (inputs 1..6, outputs 1..2), then the zero-based routing block.
   */
  function BuildRoutingRequest(routerIP: string, input: int, output: int): (r: Result<RoutingRequest, RouteError>)
    ensures !IpAddress.ValidateIP(routerIP) ==> r == Failure(InvalidAddress)
    ensures IpAddress.ValidateIP(routerIP) && !(1 <= input <= 6 && 1 <= output <= 2) ==> r == Failure(InvalidRange)
    ensures r.Success? <==> IpAddress.ValidateIP(routerIP) && 1 <= input <= 6 && 1 <= output <= 2
    ensures r.Success? ==>
      && ParseRoutingBlock(r.value.block) == Some((output - 1, input - 1))
      && r.value.block[..|RoutingHeader|] == RoutingHeader
      && r.value.command == ShellCommand(routerIP, r.value.block)
  {
    if !IpAddress.ValidateIP(routerIP) then Failure(InvalidAddress)
    else if input < 1 || input > 6 || output < 1 || output > 2 then Failure(InvalidRange)
    else
      var block := RoutingBlock(output - 1, input - 1);
      RoutingBlockRoundTrip(output - 1, input - 1);
      Success(RoutingRequest(block, ShellCommand(routerIP, block)))
  }

  /**
   * `setVideohubInput(input, output = 1)`: resolves when the command runs
   * without error; `commandFails` is the outcome of running a command.
   */
  function SetVideohubInput(commandFails: string -> bool, routerIP: string, input: int, output: int := 1): (r: Result<(), RouteError>)
    ensures r.Success? <==>
      IpAddress.ValidateIP(routerIP) && 1 <= input <= 6 && 1 <= output <= 2
      && !commandFails(ShellCommand(routerIP, RoutingBlock(output - 1, input - 1)))
    ensures !IpAddress.ValidateIP(routerIP) ==> r == Failure(InvalidAddress)
    ensures IpAddress.ValidateIP(routerIP) && !(1 <= input <= 6 && 1 <= output <= 2) ==> r == Failure(InvalidRange)
    ensures r.Failure? && IpAddress.ValidateIP(routerIP) && 1 <= input <= 6 && 1 <= output <= 2 ==> r.error == CommandFailed
  {
    match BuildRoutingRequest(routerIP, input, output)
    case Failure(e) => Failure(e)
    case Success(req) => if commandFails(req.command) then Failure(CommandFailed) else Success(())
  }
}
