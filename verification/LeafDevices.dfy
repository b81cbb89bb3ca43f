// The device and leaf-system objects, method by method against the handler functions of LeafModules.

module LeafDevices {
  import opened Basics
  import opened Systems
  import opened LeafModules

  /** A data-object device with its read-only flag; digital devices hold 0 or 1. */
  class DataObject {
    var value: int32
    var error: Status
    var readOnly: bool

    constructor (readOnly: bool)
      ensures View() == Device(0, OK, readOnly)
    {
      value, error, this.readOnly := 0, OK, readOnly;
    }

    function View(): Device
      reads this
    {
      Device(value, error, readOnly)
    }

    method Set(v: int32) returns (st: Status)
      modifies this`value
      ensures (View(), st) == SetValue(old(View()), v)
    {
      if readOnly {
        return WRITE_PROTECTED;
      }
      value := v;
      return error;
    }

    method Get() returns (r: Result)
      ensures r == GetValue(View())
    {
      if error != OK {
        return Err(error);
      }
      return Value(value);
    }

    /** Toggling a digital device from its current state. */
    method Toggle() returns (st: Status)
      modifies this`value
      ensures old(error) != OK ==> st == old(error) && View() == old(View())
      ensures old(error) == OK ==> (View(), st) == SetValue(old(View()), 1 - Truth(old(value)))
    {
      var current := Get();
      if current.Err? {
        return current.error;
      }
      st := Set(1 - Truth(current.val));
    }
  }

  class AnalogSystem {
    const device: DataObject
    const names: Names
    var target: int32

    function View(): Context
      reads this, device
    {
      Context(device.View(), target, names)
    }

    constructor (device: DataObject, names: Names)
      ensures this.device == device && this.names == names
      ensures target == if device.error == OK then device.value else 0
    {
      this.device, this.names, target := device, names, 0;
      new;
      Init();
    }

    method Init()
      modifies this`target
      ensures target == if device.error == OK then device.value else 0
    {
      var current := device.Get();
      target := if current.Value? then current.val else 0;
    }

    method WriteInput(id: u8, v: int32) returns (st: Status)
      modifies this`target, device`value
      ensures (View(), st) == AnalogWrite(old(View()), id, v)
    {
      target := v;
      st := device.Set(v);
    }

    method ReadInput(id: u8) returns (r: Result)
      ensures r == ReadTarget(View(), id)
    {
      r := Value(target);
    }

    method ReadOutput(id: u8) returns (r: Result)
      ensures r == ReadDevice(View(), id)
    {
      r := device.Get();
    }

    method GetAlias(id: u8, info: CmdInfo) returns (r: CmdInfo, st: Status)
      ensures (r, st) == AnalogAlias(View(), id, info)
    {
      match id {
        case 0 => return info.(alias := names.state, cmd := OutputCmd, id := 0, hasPreset := false), OK;
        case 1 => return info.(alias := names.target, cmd := InputCmd, id := 0, hasPreset := false), OK;
        case _ => return info, INVALID_ARGS;
      }
    }

    method MemberCount(k: Kind) returns (n: u8)
      ensures Counter(ANALOG, k) == Some(Counter(ANALOG, k).value) && n == Counter(ANALOG, k).value(View())
    {
      match k {
        case Func => n := 0;
        case Input => n := if device.readOnly then 0 else 1;
        case Output => n := 1;
        case Alias => n := if device.readOnly then 1 else 2;
      }
    }
  }

  class DigitalSystem {
    const device: DataObject
    const names: Names
    var target: bool

    function View(): Context
      reads this, device
    {
      Context(device.View(), if target then 1 else 0, names)
    }

    constructor (device: DataObject, names: Names)
      ensures this.device == device && this.names == names
      ensures target == (device.error == OK && device.value != 0)
    {
      this.device, this.names, target := device, names, false;
      new;
      Init();
    }

    method Init()
      modifies this`target
      ensures target == (device.error == OK && device.value != 0)
    {
      var current := device.Get();
      target := current.Value? && current.val != 0;
    }

    method WriteInput(id: u8, v: int32) returns (st: Status)
      modifies this`target, device`value
      ensures (View(), st) == DigitalWrite(old(View()), id, v)
    {
      target := v != 0;
      st := device.Set(Truth(v));
    }

    method Invoke(id: u8, args: seq<int32>) returns (st: Status)
      modifies this`target, device`value
      ensures (View(), st) == DigitalInvoke(old(View()), id, args)
    {
      var current := device.Get();
      if current.Err? {
        return current.error;
      }
      target := current.val == 0;
      st := device.Toggle();
    }

    method ReadInput(id: u8) returns (r: Result)
      ensures r == ReadTarget(View(), id)
    {
      r := Value(if target then 1 else 0);
    }

    method ReadOutput(id: u8) returns (r: Result)
      ensures r == ReadDevice(View(), id)
    {
      r := device.Get();
    }

    method GetAlias(id: u8, info: CmdInfo) returns (r: CmdInfo, st: Status)
      ensures (r, st) == DigitalAlias(View(), id, info)
    {
      match id {
        case 0 => return info.(alias := names.state, cmd := OutputCmd, id := 0, hasPreset := false), OK;
        case 1 => return info.(alias := names.target, cmd := InputCmd, id := 0, hasPreset := false), OK;
        case 2 => return CmdInfo(names.turnOn, InputCmd, 0, true, 1), OK;
        case 3 => return CmdInfo(names.turnOff, InputCmd, 0, true, 0), OK;
        case 4 => return info.(alias := names.toggle, cmd := FuncCmd, id := 0, hasPreset := false), OK;
        case _ => return info, INVALID_ARGS;
      }
    }

    method MemberCount(k: Kind) returns (n: u8)
      ensures Counter(DIGITAL, k) == Some(Counter(DIGITAL, k).value) && n == Counter(DIGITAL, k).value(View())
    {
      match k {
        case Func => n := if device.readOnly then 0 else 1;
        case Input => n := if device.readOnly then 0 else 1;
        case Output => n := 1;
        case Alias => n := if device.readOnly then 1 else 5;
      }
    }
  }
}
