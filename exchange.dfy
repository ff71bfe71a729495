/** Frames the builder sends, read back by the parser: the commands of
    wxt5xx/message.py's `Message` classes against its `MessageParser`. */
module Exchange {
  import opened Common
  import opened Text
  import opened Settings
  import opened Parsers
  import opened Frames
  import opened Commands

  /** Sending settings and reading them back: the frame set_*_settings
      builds for a one-character address, fed to a CRC parser, is dispatched
      to the settings parser of its kind, which returns the dict's plain
      fields and its Requested and Composite flags over the kind's order. */
  lemma SettingsCommandRoundTrip(m: Message, k: Kind, es: seq<Entry>, i: nat,
                                 req: map<string, bool>, comp: map<string, bool>)
    requires m.variant == Ascii && m.hasChecksum
    requires |m.address| == 1 && !IsSpace(m.address[0])
    requires WellFormed(es) && Clean(es)
    requires i < |es| && es[i] == ("R", RValue(FlagMap(req), FlagMap(comp)))
    requires forall j :: 0 <= j < |Order(k)| ==> Order(k)[j] in req && Order(k)[j] in comp
    ensures m.SettingsFrame(k, es).Ok?
    ensures ParseFrame(true, m.SettingsFrame(k, es).value) ==
      Ok(SettingsReply(k, Decoded(PlainFields(k, es), Over(Order(k), req), Over(Order(k), comp))))
  {
    SettingsRoundTrip(k, es, i, req, comp);
    SettingsFrameOf(m, k, es, Decoded(PlainFields(k, es), Over(Order(k), req), Over(Order(k), comp)));
  }

  /** The frame of a settings dict whose packed text decodes is parsed to
      that decoding. */
  lemma SettingsFrameOf(m: Message, k: Kind, es: seq<Entry>, decoded: Decoded)
    requires m.variant == Ascii && m.hasChecksum
    requires |m.address| == 1 && !IsSpace(m.address[0])
    requires WellFormed(es) && CreatedMessage(k, es).Ok?
    requires ParseSettings(k, Tag(k) + "," + CreatedMessage(k, es).value) == Ok(Some(decoded))
    ensures m.SettingsFrame(k, es).Ok?
    ensures ParseFrame(true, m.SettingsFrame(k, es).value) == Ok(SettingsReply(k, decoded))
  {
    var msg := CreatedMessage(k, es).value;
    assert m.SettingsFrame(k, es) == Ok(m.Framed(m.address + Tag(k) + "," + msg));
    SettingsFrameParses(m, k, msg, decoded);
  }

  /** A settings frame whose parameter text decodes is parsed to that
      decoding. */
  lemma SettingsFrameParses(m: Message, k: Kind, msg: string, decoded: Decoded)
    requires m.variant == Ascii && m.hasChecksum
    requires |m.address| == 1 && !IsSpace(m.address[0])
    requires ParseSettings(k, Tag(k) + "," + msg) == Ok(Some(decoded))
    ensures ParseFrame(true, m.Framed(m.address + Tag(k) + "," + msg)) == Ok(SettingsReply(k, decoded))
  {
    var rest := Tag(k) + "," + msg;
    SettingsFrameChecks(m, k, msg);
    TaggedLeader(k, msg);
    DispatchSettings(k, rest);
    RunSettings(k, rest, decoded);
  }

  /** The settings frame passes the check, giving the address and the rest. */
  lemma SettingsFrameChecks(m: Message, k: Kind, msg: string)
    requires m.variant == Ascii && m.hasChecksum
    requires |m.address| == 1 && !IsSpace(m.address[0])
    ensures var body := m.address + Tag(k) + "," + msg;
      && CheckCrc(m.Framed(body)) == (body, true)
      && body[1..] == Tag(k) + "," + msg
  {
    var body := m.address + Tag(k) + "," + msg;
    assert body == m.address + (Tag(k) + "," + msg);
  }

  lemma TaggedLeader(k: Kind, msg: string)
    ensures Leader(Tag(k) + "," + msg) == Tag(k)
  {
    assert Tag(k) + "," + msg == Tag(k) + [','] + msg;
    SplitAfterSep(Tag(k), msg, ',');
  }

  lemma RunSettings(k: Kind, message: string, decoded: Decoded)
    requires ParseSettings(k, message) == Ok(Some(decoded))
    ensures Answer(SettingsParser(k), message) == Ok(SettingsReply(k, decoded))
  {
    assert Run(SettingsParser(k), message) == Ok(Some(SettingsReply(k, decoded)));
  }

  /** A message led by a settings tag goes to that kind's settings parser. */
  lemma DispatchSettings(k: Kind, rest: string)
    requires Leader(rest) == Tag(k)
    ensures Dispatch(rest) == Answer(SettingsParser(k), rest)
  {
    var n := match k case PtuSettings => 6 case PrecipitationSettings => 7 case SupervisorSettings => 8;
    assert Chain[n] == SettingsParser(k);
    DispatchByTag(rest);
  }
}
