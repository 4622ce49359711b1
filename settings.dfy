/** What an instance of the serializer is configured with. */
module Settings {
  import opened PhpValues
  import opened Reflection
  import opened JsonText

  /**
   * A callable registered with `defineSerialization`: a serializer maps an
   * object to the value written in its place, an unserializer maps the
   * decoded data back. User code, so it enters as an uninterpreted function.
   */
  datatype Codec = Codec(apply: Value -> Value)

  datatype Config = Config(
    format: Format,
    skipPrivate: bool,
    serializers: map<string, Codec>,
    unserializers: map<string, Codec>,
    classes: ClassTable,
    escape: Escaper)
}
