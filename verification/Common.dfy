/** Shared value types. */
module Common {
  datatype Option<+T> = None | Some(value: T)

  datatype Result<+T> = Ok(value: T) | Err(error: string)

  /** A Rust `String` or `&[u8]`: a String is exactly its UTF-8 bytes. */
  type byte = b: int | 0 <= b < 256

  type Bytes = seq<byte>
}

/** Meter readings as the diagnostic engine stores them. */
module Readings {
  import opened Common

  type Month = m: int | 0 <= m < 12

  const MONTHS: nat := 12

  /** An instant, with the zero-based calendar month it falls in. */
  datatype Timestamp = Timestamp(nanos: int, month0: Month)

  datatype Weather = Weather(temperatureC: real, precipitationMm: real)

  datatype Reading = Reading(timestamp: Timestamp, value: real, weather: Option<Weather>)
}
