/** The PortAudio values that cross the boundary into the modelled code:
    sample formats and their widths, the "no device" index, callback
    return flags and the per-callback time information. */
module PortAudio {

  /** `pyaudio.paFloat32`, `paInt32`, `paInt24`, `paInt16`, `paInt8`, `paUInt8`. */
  datatype PaFormat = PaFloat32 | PaInt32 | PaInt24 | PaInt16 | PaInt8 | PaUInt8

  /** `pyaudio.get_sample_size(format)`: bytes per sample of one channel. */
  function SampleSize(f: PaFormat): (n: nat)
    ensures 1 <= n <= 4
  {
    match f
    case PaFloat32 => 4
    case PaInt32 => 4
    case PaInt24 => 3
    case PaInt16 => 2
    case PaInt8 => 1
    case PaUInt8 => 1
  }

  /** Byte length of a raw buffer holding `samples` in format `f`; raw
      buffers are modelled by their samples, never by their bytes. */
  function ByteLength(samples: seq<int>, f: PaFormat): nat
  {
    |samples| * SampleSize(f)
  }

  /** `pyaudio.paNoDevice` */
  const PaNoDevice: int := -1

  /** What a stream callback returns to PortAudio. */
  datatype CallbackFlag = PaContinue | PaComplete | PaAbort

  /** `PaStreamCallbackTimeInfo`; device-clock seconds are modelled as
      opaque integers because the code only passes them along. */
  datatype TimeInfo = TimeInfo(currentTime: int, inputBufferAdcTime: int, outputBufferDacTime: int)
}
