/** Devices, forced-use settings and FM modes shared by the parts of the audio policy. */
module PolicyTypes {
  /** An output device is one bit of a mask; a mask is a set of devices. */
  datatype Device =
    | Earpiece | Speaker | WiredHeadset | WiredHeadphone
    | BluetoothSco | BluetoothScoHeadset | BluetoothScoCarkit
    | BluetoothA2dp | BluetoothA2dpHeadphones | BluetoothA2dpSpeaker
    | AuxDigital | AnlgDockHeadset | DgtlDockHeadset | UsbAccessory | UsbDevice
    | RemoteSubmix | Fm | OtherOutput(bit: nat)

  datatype InputDevice = InWiredHeadset | InBluetoothScoHeadset | OtherInput(bit: nat)

  const A2DP_DEVICES: set<Device> := {BluetoothA2dp, BluetoothA2dpHeadphones, BluetoothA2dpSpeaker}
  const USB_DEVICES: set<Device> := {UsbAccessory, UsbDevice}

  datatype Status = NoError | BadValue | InvalidOperation

  datatype FmMode = FmDigital | FmAnalog | FmNone

  datatype Usage = ForCommunication | ForMedia | ForRecord | ForDock | ForSystem | OtherUsage(index: int)

  datatype Forced =
    | ForceNone | ForceSpeaker | ForceHeadphones | ForceBtSco | ForceBtA2dp | ForceWiredAccessory
    | ForceBtCarDock | ForceBtDeskDock | ForceAnalogDock | ForceDigitalDock | ForceNoBtA2dp | ForceSystemEnforced
}
