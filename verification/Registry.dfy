/** The codepoint tables of tools/zmuxwire/registry.py that the codec looks things up in. */
module Registry {
  import opened Base
  import opened Varint

  // ---------------------------------------------------------------- frame types

  /** A negotiated feature that a frame type needs. */
  datatype Gate =
    | GateResetStreamAt
    | GateMaxDatagramFrameSize
    | GateGoaway
    | GatePriority
    | GateMultipath
    | GatePipeAck
    | GateMaxLanes

  datatype FrameKind =
    | PADDING | RESET_STREAM | STOP_SENDING | STREAM | MAX_DATA | MAX_STREAM_DATA | MAX_STREAMS
    | DATA_BLOCKED | STREAM_DATA_BLOCKED | STREAMS_BLOCKED | CONNECTION_CLOSE | RESET_STREAM_AT
    | DATAGRAM | QX_TRANSPORT_PARAMETERS | QX_PING | GOAWAY | PRIORITY_UPDATE | PIPE_JOIN
    | PIPE_ACK | PIPE_LANE | PIPE_PING | PIPE_ABANDON | PIPE_STATUS

  datatype FrameType = Prohibited | Active(kind: FrameKind)

  const QX_TRANSPORT_PARAMETERS_TYPE: vint := 0x3F51_5330_0D0A_0D0A
  const QX_PING_REQUEST_TYPE: vint := 0x348C_6752_9EF8_C7BD
  const QX_PING_RESPONSE_TYPE: vint := 0x348C_6752_9EF8_C7BE
  const GOAWAY_TYPE: vint := 0x1911F43E
  const PRIORITY_UPDATE_TYPE: vint := 0x073D08CF
  const PIPE_JOIN_TYPE: vint := 0x1A24DE36
  const PIPE_ACK_TYPE: vint := 0x0B2B3EEB
  const PIPE_LANE_TYPE: vint := 0x3A05A1C9
  const PIPE_PING_TYPE: vint := 0x269B43E6
  const PIPE_ABANDON_TYPE: vint := 0x23B35B74
  const PIPE_STATUS_TYPE: vint := 0x227B2811

  /** frame_by_type: the first row of FRAME_TYPES whose range holds `t`. */
  function FrameByType(t: vint): Option<FrameType> {
    if t == 0x00 then Some(Active(PADDING))
    else if t == 0x01 then Some(Prohibited)             // PING
    else if 0x02 <= t <= 0x03 then Some(Prohibited)     // ACK
    else if t == 0x04 then Some(Active(RESET_STREAM))
    else if t == 0x05 then Some(Active(STOP_SENDING))
    else if 0x06 <= t <= 0x07 then Some(Prohibited)     // CRYPTO, NEW_TOKEN
    else if 0x08 <= t <= 0x0F then Some(Active(STREAM))
    else if t == 0x10 then Some(Active(MAX_DATA))
    else if t == 0x11 then Some(Active(MAX_STREAM_DATA))
    else if 0x12 <= t <= 0x13 then Some(Active(MAX_STREAMS))
    else if t == 0x14 then Some(Active(DATA_BLOCKED))
    else if t == 0x15 then Some(Active(STREAM_DATA_BLOCKED))
    else if 0x16 <= t <= 0x17 then Some(Active(STREAMS_BLOCKED))
    else if 0x18 <= t <= 0x1B then Some(Prohibited)     // connection IDs and path validation
    else if 0x1C <= t <= 0x1D then Some(Active(CONNECTION_CLOSE))
    else if t == 0x1E then Some(Prohibited)             // HANDSHAKE_DONE
    else if t == 0x24 then Some(Active(RESET_STREAM_AT))
    else if 0x30 <= t <= 0x31 then Some(Active(DATAGRAM))
    else if t == QX_TRANSPORT_PARAMETERS_TYPE then Some(Active(QX_TRANSPORT_PARAMETERS))
    else if QX_PING_REQUEST_TYPE <= t <= QX_PING_RESPONSE_TYPE then Some(Active(QX_PING))
    else if t == GOAWAY_TYPE then Some(Active(GOAWAY))
    else if t == PRIORITY_UPDATE_TYPE then Some(Active(PRIORITY_UPDATE))
    else if t == PIPE_JOIN_TYPE then Some(Active(PIPE_JOIN))
    else if t == PIPE_ACK_TYPE then Some(Active(PIPE_ACK))
    else if t == PIPE_LANE_TYPE then Some(Active(PIPE_LANE))
    else if t == PIPE_PING_TYPE then Some(Active(PIPE_PING))
    else if t == PIPE_ABANDON_TYPE then Some(Active(PIPE_ABANDON))
    else if t == PIPE_STATUS_TYPE then Some(Active(PIPE_STATUS))
    else None
  }

  /** The `first` and `last` columns. */
  function FirstCode(kind: FrameKind): vint {
    match kind
    case PADDING => 0x00
    case RESET_STREAM => 0x04
    case STOP_SENDING => 0x05
    case STREAM => 0x08
    case MAX_DATA => 0x10
    case MAX_STREAM_DATA => 0x11
    case MAX_STREAMS => 0x12
    case DATA_BLOCKED => 0x14
    case STREAM_DATA_BLOCKED => 0x15
    case STREAMS_BLOCKED => 0x16
    case CONNECTION_CLOSE => 0x1C
    case RESET_STREAM_AT => 0x24
    case DATAGRAM => 0x30
    case QX_TRANSPORT_PARAMETERS => 0x3F51_5330_0D0A_0D0A
    case QX_PING => 0x348C_6752_9EF8_C7BD
    case GOAWAY => 0x1911F43E
    case PRIORITY_UPDATE => 0x073D08CF
    case PIPE_JOIN => 0x1A24DE36
    case PIPE_ACK => 0x0B2B3EEB
    case PIPE_LANE => 0x3A05A1C9
    case PIPE_PING => 0x269B43E6
    case PIPE_ABANDON => 0x23B35B74
    case PIPE_STATUS => 0x227B2811
  }

  function LastCode(kind: FrameKind): vint {
    match kind
    case STREAM => 0x0F
    case MAX_STREAMS => 0x13
    case STREAMS_BLOCKED => 0x17
    case CONNECTION_CLOSE => 0x1D
    case DATAGRAM => 0x31
    case QX_PING => 0x348C_6752_9EF8_C7BE
    case _ => FirstCode(kind)
  }

  /** A type belongs to exactly the codes between the first and the last of its row. */
  lemma KindCodes(kind: FrameKind, code: vint)
    ensures FrameByType(code) == Some(Active(kind)) <==> FirstCode(kind) <= code <= LastCode(kind)
  {
  }

  /** The `gate` column: any one of these features admits the frame; none means ungated. */
  function GatesOf(kind: FrameKind): set<Gate> {
    match kind
    case RESET_STREAM_AT => {GateResetStreamAt}
    case DATAGRAM => {GateMaxDatagramFrameSize}
    case GOAWAY => {GateGoaway}
    case PRIORITY_UPDATE => {GatePriority}
    case PIPE_JOIN => {GateMultipath}
    case PIPE_ACK => {GateMultipath, GatePipeAck}
    case PIPE_LANE => {GateMaxLanes}
    case PIPE_PING => {GateMultipath}
    case PIPE_ABANDON => {GateMultipath}
    case PIPE_STATUS => {GateMultipath}
    case _ => {}
  }

  // ---------------------------------------------------------------- transport parameters

  datatype TpName =
    | MaxIdleTimeout | InitialMaxData | InitialMaxStreamDataBidiLocal
    | InitialMaxStreamDataBidiRemote | InitialMaxStreamDataUni | InitialMaxStreamsBidi
    | InitialMaxStreamsUni | ResetStreamAtSupport | MaxDatagramFrameSize | MaxRecordSize
    | ZmuxRole | ZmuxGoaway | ZmuxPreamble | ZmuxPriority | ZmuxDatagramFlows
    | ZmuxCarrierDatagrams | ZmuxMultipath | ZmuxPipeAck | ZmuxAckThreshold | ZmuxMaxAckDelay
    | ZmuxMaxLanes | ZmuxResume

  datatype TpFormat = VarintFormat | EmptyFormat | RoleFormat | MultipathFormat | LanesFormat

  function TpId(name: TpName): vint {
    match name
    case MaxIdleTimeout => 0x01
    case InitialMaxData => 0x04
    case InitialMaxStreamDataBidiLocal => 0x05
    case InitialMaxStreamDataBidiRemote => 0x06
    case InitialMaxStreamDataUni => 0x07
    case InitialMaxStreamsBidi => 0x08
    case InitialMaxStreamsUni => 0x09
    case ResetStreamAtSupport => 0x1D
    case MaxDatagramFrameSize => 0x20
    case MaxRecordSize => 0x0571_C594_29CD_0845
    case ZmuxRole => 0x17240207
    case ZmuxGoaway => 0x04528A5F
    case ZmuxPreamble => 0x0439E07A
    case ZmuxPriority => 0x31E7139D
    case ZmuxDatagramFlows => 0x0AF391ED
    case ZmuxCarrierDatagrams => 0x3D274C5F
    case ZmuxMultipath => 0x30DC2978
    case ZmuxPipeAck => 0x34B47621
    case ZmuxAckThreshold => 0x2762C7E5
    case ZmuxMaxAckDelay => 0x17FA1ED6
    case ZmuxMaxLanes => 0x27856EF0
    case ZmuxResume => 0x0D5778CE
  }

  function TpFormatOf(name: TpName): TpFormat {
    match name
    case ResetStreamAtSupport => EmptyFormat
    case ZmuxRole => RoleFormat
    case ZmuxGoaway => EmptyFormat
    case ZmuxPriority => EmptyFormat
    case ZmuxDatagramFlows => EmptyFormat
    case ZmuxCarrierDatagrams => EmptyFormat
    case ZmuxMultipath => MultipathFormat
    case ZmuxPipeAck => EmptyFormat
    case ZmuxMaxLanes => LanesFormat
    case _ => VarintFormat
  }

  /** QUIC v1 parameters that a peer must not send: rows with scope "prohibited". */
  predicate IsProhibitedTp(id: int) {
    id == 0x00 || 0x02 <= id <= 0x03 || 0x0A <= id <= 0x10
  }

  /** tp_by_id for the rows that are not prohibited; None also for an unregistered id. */
  function TpById(id: int): Option<TpName> {
    if id == 0x01 then Some(MaxIdleTimeout)
    else if id == 0x04 then Some(InitialMaxData)
    else if id == 0x05 then Some(InitialMaxStreamDataBidiLocal)
    else if id == 0x06 then Some(InitialMaxStreamDataBidiRemote)
    else if id == 0x07 then Some(InitialMaxStreamDataUni)
    else if id == 0x08 then Some(InitialMaxStreamsBidi)
    else if id == 0x09 then Some(InitialMaxStreamsUni)
    else if id == 0x1D then Some(ResetStreamAtSupport)
    else if id == 0x20 then Some(MaxDatagramFrameSize)
    else if id == 0x0571_C594_29CD_0845 then Some(MaxRecordSize)
    else if id == 0x17240207 then Some(ZmuxRole)
    else if id == 0x04528A5F then Some(ZmuxGoaway)
    else if id == 0x0439E07A then Some(ZmuxPreamble)
    else if id == 0x31E7139D then Some(ZmuxPriority)
    else if id == 0x0AF391ED then Some(ZmuxDatagramFlows)
    else if id == 0x3D274C5F then Some(ZmuxCarrierDatagrams)
    else if id == 0x30DC2978 then Some(ZmuxMultipath)
    else if id == 0x34B47621 then Some(ZmuxPipeAck)
    else if id == 0x2762C7E5 then Some(ZmuxAckThreshold)
    else if id == 0x17FA1ED6 then Some(ZmuxMaxAckDelay)
    else if id == 0x27856EF0 then Some(ZmuxMaxLanes)
    else if id == 0x0D5778CE then Some(ZmuxResume)
    else None
  }

  /** The parameter table is a bijection between its names and its ids. */
  lemma TpTable(id: int, name: TpName)
    ensures TpById(id) == Some(name) <==> id == TpId(name)
    ensures TpById(id).Some? ==> !IsProhibitedTp(id)
  {
  }

  // ---------------------------------------------------------------- limits, TLV types

  const MAX_JOIN_FRAME_BYTES := 64
  const MAX_LOCATOR_BYTES := 16
  const JOIN_TOKEN_BYTES := 16
  const LANE_KEY_BYTES := 16
  const DEFAULT_MAX_RECORD_SIZE := 16382
  const MAX_PREAMBLE_TP_OVERHEAD := 32

  const APP_TLV_FIRST := 0x1000
  const APP_TLV_LAST := 0x3FFF

  predicate IsGreaseTlv(v: int) {
    v >= 0x21 && (v - 0x21) % 0x1F == 0
  }
}
