/** The button injection of the ESPHome component (`bestway_spa.cpp`): a
    climate call that raises or lowers the target queues an UP or DOWN
    press, and each pass of the main loop hands the code of the oldest
    queued button to the TYPE1 controller driver, or the NOBTN code when
    the queue is empty. */
module BestwaySpa {
  import opened Bytes
  import opened SpaStates
  import opened Wrappers
  import VaCioType1

  /** `ProtocolType`. */
  datatype ProtocolType = Protocol6WireT1 | Protocol6WireT2 | Protocol4Wire

  /** The buttons a climate call queues for a requested target: UP above
      the controller's target, DOWN below it, nothing when it is equal or
      no target is requested. */
  function ControlButtons(newTarget: Option<real>, target: u8): (q: seq<Button>)
  {
    match newTarget
    case None => []
    case Some(t) =>
      if t > target as real then [UP] else if t < target as real then [DOWN] else []
  }

  /** At most one button is queued, UP exactly when the request is above
      the target and DOWN exactly when it is below. */
  lemma ControlButtonsMeaning(newTarget: Option<real>, target: u8)
    ensures |ControlButtons(newTarget, target)| <= 1
    ensures ControlButtons(newTarget, target) == [UP] <==>
              newTarget.Some? && newTarget.value > target as real
    ensures ControlButtons(newTarget, target) == [DOWN] <==>
              newTarget.Some? && newTarget.value < target as real
  {
  }

  /** One pass of the loop over a queue: the code handed to the driver and
      the queue left over. */
  function InjectStep(queue: seq<Button>): (r: (u16, seq<Button>))
  {
    if queue == [] then (VaCioType1.ButtonCode(NOBTN), [])
    else (VaCioType1.ButtonCode(queue[0]), queue[1..])
  }

  /** The codes handed over by `n` passes of the loop over `queue`. */
  function Injected(queue: seq<Button>, n: nat): seq<u16>
  {
    if n == 0 then [] else [InjectStep(queue).0] + Injected(InjectStep(queue).1, n - 1)
  }

  /** The queue is first in, first out: `|queue| + k` passes hand over the
      codes of the queued buttons in the order they were queued, then the
      NOBTN code on every further pass. */
  lemma {:induction false} InjectedInOrder(queue: seq<Button>, k: nat)
    ensures Injected(queue, |queue| + k) ==
              seq(|queue|, i requires 0 <= i < |queue| => VaCioType1.ButtonCode(queue[i])) +
              seq(k, _ => VaCioType1.ButtonCode(NOBTN))
    decreases |queue| + k
  {
    var codes := seq(|queue|, i requires 0 <= i < |queue| => VaCioType1.ButtonCode(queue[i]));
    var idle := seq(k, _ => VaCioType1.ButtonCode(NOBTN));
    if queue != [] {
      InjectedInOrder(queue[1..], k);
      assert codes == [VaCioType1.ButtonCode(queue[0])] +
                      seq(|queue| - 1, i requires 0 <= i < |queue| - 1 => VaCioType1.ButtonCode(queue[1..][i]));
    } else if k > 0 {
      InjectedInOrder([], k - 1);
      assert idle == [VaCioType1.ButtonCode(NOBTN)] + seq(k - 1, _ => VaCioType1.ButtonCode(NOBTN));
    }
  }

  class BestwaySpa {
    const protocolType: ProtocolType
    var buttonQueue: seq<Button>
    var outgoingButtonCode: u16
    var currentTemperature: int
    var targetTemperature: int

    /** A component for the given bus with an empty queue; the driver's
        outgoing code starts as the NOBTN code 0x1B1B. */
    constructor(protocolType: ProtocolType)
      ensures this.protocolType == protocolType
      ensures buttonQueue == [] && outgoingButtonCode == 0x1B1B
    {
      this.protocolType := protocolType;
      buttonQueue := [];
      outgoingButtonCode := 0x1B1B;
    }

    /** on_button_press_(button): queue the button. */
    method OnButtonPress(button: Button)
      modifies this`buttonQueue
      ensures buttonQueue == old(buttonQueue) + [button]
    {
      buttonQueue := buttonQueue + [button];
    }

    /** control(call), with `target` the controller's current target: a
        higher requested target queues UP, a lower one DOWN. */
    method Control(newTarget: Option<real>, target: u8)
      modifies this`buttonQueue
      ensures buttonQueue == old(buttonQueue) + ControlButtons(newTarget, target)
    {
      if newTarget.Some? {
        if newTarget.value > target as real {
          OnButtonPress(UP);
        } else if newTarget.value < target as real {
          OnButtonPress(DOWN);
        }
      }
    }

    /** loop(), with `temperature` and `target` the TYPE1 controller's states
        after its updateStates(): on the TYPE1 bus the climate's current and
        target temperature follow the controller's on every pass, then one
        button is injected; other buses change nothing. */
    method Loop(temperature: u8, target: u8)
      modifies this`currentTemperature, this`targetTemperature, this`buttonQueue, this`outgoingButtonCode
      ensures protocolType != Protocol6WireT1 ==>
                currentTemperature == old(currentTemperature) && targetTemperature == old(targetTemperature) &&
                buttonQueue == old(buttonQueue) && outgoingButtonCode == old(outgoingButtonCode)
      ensures protocolType == Protocol6WireT1 ==>
                currentTemperature == temperature && targetTemperature == target &&
                (outgoingButtonCode, buttonQueue) == InjectStep(old(buttonQueue))
    {
      if protocolType != Protocol6WireT1 {
        return;
      }
      currentTemperature := temperature;
      targetTemperature := target;
      InjectButton();
    }

    /** The button injection at the end of loop(): on the TYPE1 bus the
        oldest queued button's code is handed to the driver and dequeued, or
        the NOBTN code when the queue is empty; other buses change nothing. */
    method InjectButton()
      modifies this`buttonQueue, this`outgoingButtonCode
      ensures protocolType != Protocol6WireT1 ==>
                buttonQueue == old(buttonQueue) && outgoingButtonCode == old(outgoingButtonCode)
      ensures protocolType == Protocol6WireT1 ==>
                (outgoingButtonCode, buttonQueue) == InjectStep(old(buttonQueue))
    {
      if protocolType != Protocol6WireT1 {
        return;
      }
      if buttonQueue != [] {
        var btn := buttonQueue[0];
        var code := VaCioType1.ButtonCode(btn);
        outgoingButtonCode := code;
        buttonQueue := buttonQueue[1..];
      } else {
        outgoingButtonCode := VaCioType1.ButtonCode(NOBTN);
      }
    }
  }
}
