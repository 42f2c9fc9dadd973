/**
 * The header bar: a WhatsApp connection toggle that goes through a QR-code
 * popup, and a field where a tutorial video link is typed and then added.
 * The three pieces of component state are the fields of `Header`; each
 * handler is a method that assigns them.
 */
module MiniHeader {

  import opened Wrappers
  import opened JsString

  /** The connection button shown in the header; which one depends on the state. */
  datatype ConnectionButton = ConnectWhatsApp | Disconnect

  class Header {
    var isConnected: bool
    var showQRCode: bool
    var videoUrl: string

    /** A freshly mounted header: not connected, popup hidden, empty link field. */
    constructor ()
      ensures !isConnected && !showQRCode && videoUrl == []
    {
      isConnected := false;
      showQRCode := false;
      videoUrl := [];
    }

    /** The header offers "disconnect" exactly while connected and "connect" exactly while not. */
    function ShownConnectionButton(): (b: ConnectionButton)
      reads this
      ensures b == Disconnect <==> isConnected
      ensures b == ConnectWhatsApp <==> !isConnected
    {
      if isConnected then Disconnect else ConnectWhatsApp
    }

    /** "Conectar WhatsApp": opens the QR-code popup and changes nothing else. */
    method HandleConnect()
      modifies this
      ensures showQRCode
      ensures isConnected == old(isConnected) && videoUrl == old(videoUrl)
    {
      showQRCode := true;
    }

    /** "Desconectar": drops the connection and changes nothing else. */
    method HandleDisconnect()
      modifies this
      ensures !isConnected
      ensures showQRCode == old(showQRCode) && videoUrl == old(videoUrl)
    {
      isConnected := false;
    }

    /** Closing the QR-code popup hides it and counts as a successful connection; the link field is untouched. */
    method HandleQRCodeClose()
      modifies this
      ensures !showQRCode && isConnected
      ensures videoUrl == old(videoUrl)
    {
      showQRCode := false;
      isConnected := true;
    }

    /** Typing in the link field stores exactly what was typed. */
    method HandleVideoUrlChange(value: string)
      modifies this
      ensures videoUrl == value
      ensures isConnected == old(isConnected) && showQRCode == old(showQRCode)
    {
      videoUrl := value;
    }

    /**
     * "Adicionar": when the field is not blank, hands its text, untrimmed, to
     * the `onTutorialAdded` callback (the returned value) and empties the
     * field; a blank field emits nothing and changes nothing.
     */
    method HandleAddVideo() returns (added: Option<string>)
      modifies this
      ensures added.None? <==> AllWhitespace(old(videoUrl))
      ensures added.None? ==> videoUrl == old(videoUrl)
      ensures added.Some? ==> added.value == old(videoUrl) && videoUrl == []
      ensures isConnected == old(isConnected) && showQRCode == old(showQRCode)
    {
      BlankIffAllWhitespace(videoUrl);
      if !IsBlank(videoUrl) {
        added := Some(videoUrl);
        videoUrl := [];
      } else {
        added := None;
      }
    }

    /** A click on whichever connection button is shown: connect while disconnected, disconnect while connected. */
    method ClickConnectionButton()
      modifies this
      ensures old(isConnected) ==> !isConnected && showQRCode == old(showQRCode)
      ensures !old(isConnected) ==> !isConnected && showQRCode
      ensures videoUrl == old(videoUrl)
    {
      if ShownConnectionButton() == Disconnect {
        HandleDisconnect();
      } else {
        HandleConnect();
      }
    }
  }

  /** Adding twice in a row: the second click finds the field empty and emits nothing. */
  method AddVideoTwice(h: Header) returns (first: Option<string>, second: Option<string>)
    modifies h
    ensures first.Some? <==> !AllWhitespace(old(h.videoUrl))
    ensures first.Some? ==> first.value == old(h.videoUrl)
    ensures second.None?
    ensures h.videoUrl == (if first.Some? then [] else old(h.videoUrl))
    ensures h.isConnected == old(h.isConnected) && h.showQRCode == old(h.showQRCode)
  {
    first := h.HandleAddVideo();
    if first.None? {
      assert AllWhitespace(h.videoUrl);
    }
    second := h.HandleAddVideo();
  }

  /** The full connection round: connect opens the popup, closing it connects, disconnect returns to the start. */
  method ConnectionRound(h: Header)
    requires !h.isConnected
    modifies h
    ensures !h.isConnected && !h.showQRCode
    ensures h.videoUrl == old(h.videoUrl)
  {
    h.ClickConnectionButton();
    assert h.showQRCode && h.ShownConnectionButton() == ConnectWhatsApp;
    h.HandleQRCodeClose();
    assert h.ShownConnectionButton() == Disconnect;
    h.ClickConnectionButton();
  }
}
