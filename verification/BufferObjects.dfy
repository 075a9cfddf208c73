/** The relay buffer as the source writes it: an object shared by the two endpoints of a connection
    and updated in place (lab32v2/buffer/BufferImpl.cpp). Every method is proved against the function
    of module BufferSpec that says what it does, to the buffer and to the cache. */
module BufferObjects {
  import opened Wrappers
  import opened Parser
  import opened CacheSpec
  import opened BufferSpec
  import opened CashObjects

  /** The buffer with what the cache answered, before the body is framed. */
  function WithOffer(b: Buf, offer: Option<Option<nat>>): Buf {
    b.(isAddDataToCash := if offer.Some? then offer.value.Some? else b.isAddDataToCash,
       cashElement := if offer.Some? then offer.value else b.cashElement)
  }

  lemma OfferThenHeading(b: Buf, headLength: nat, response: ParseResult, offer: Option<Option<nat>>)
    requires headLength <= |b.buf|
    ensures AfterHeading(WithOffer(b, offer), headLength, response, None)
      == AfterHeading(b, headLength, response, offer)
  {
  }

  lemma AfterDrainOnlyFlags(b: Buf)
    ensures var r := AfterDrain(b);
      r == b.(isReadyToSend := r.isReadyToSend, isEndSend := r.isEndSend, statusClient := r.statusClient,
              statusHttpServer := r.statusHttpServer)
  {
  }

  class BufferImpl {
    const cash: CashImpl
    var statusClient: StatusHttp
    var statusHttpServer: StatusHttp
    var requestHeading: string
    var buf: string
    var isClientConnect: bool
    var isServerConnect: bool
    var isReadyToSend: bool
    var isEndSend: bool
    var isReadyConnectHttpServer: bool
    var lengthBody: int
    var resultParseHeading: Option<ParseResult>
    var isHaveContentLengthResponse: bool
    var isAddDataToCash: bool
    var isDataGetCash: bool
    var countByteReadFromCash: nat
    var cashElement: CashElementImpl?
    var error: bool
    /** False once the buffer has been deleted. Every method but the constructor demands it. */
    ghost var live: bool

    ghost function State(): Buf
      reads this
    {
      Buf(statusClient, statusHttpServer, requestHeading, buf, isClientConnect, isServerConnect, isReadyToSend,
          isEndSend, isReadyConnectHttpServer, lengthBody, resultParseHeading, isHaveContentLengthResponse,
          isAddDataToCash, isDataGetCash, countByteReadFromCash,
          if cashElement == null then None else Some(cashElement.id), error)
    }

    ghost predicate Valid()
      reads this, cash
    {
      && live
      && cash.Valid()
      && (cashElement != null ==> cash.Has(cashElement))
      && (isAddDataToCash || isDataGetCash ==> cashElement != null)
      && (statusHttpServer.WriteResponseHeading? ==> !isDataGetCash && !statusClient.WriteRequestHeading?)
    }

    lemma ValidIsWf()
      requires Valid()
      ensures live && cash.Valid() && Wf(State(), cash.State())
      ensures isDataGetCash ==>
        cashElement != null && cash.Has(cashElement) && State().cashElement == Some(cashElement.id)
    {
    }

    lemma Flags()
      ensures State().isClientConnect == isClientConnect && State().isServerConnect == isServerConnect
      ensures State().isAddDataToCash == isAddDataToCash && State().isDataGetCash == isDataGetCash
      ensures State().statusClient == statusClient && State().statusHttpServer == statusHttpServer
      ensures State().isEndSend == isEndSend && State().isReadyConnectHttpServer == isReadyConnectHttpServer
      ensures State().buf == buf
      ensures State().isReadyToSend == isReadyToSend && State().countByteReadFromCash == countByteReadFromCash
    {
    }

    constructor (cash: CashImpl)
      requires cash.Valid()
      ensures Valid() && State() == FRESH && this.cash == cash
    {
      this.cash := cash;
      statusClient, statusHttpServer := WriteRequestHeading, ReadRequest;
      requestHeading, buf := "", "";
      isClientConnect, isServerConnect := false, false;
      isReadyToSend, isEndSend, isReadyConnectHttpServer := false, false, false;
      lengthBody, resultParseHeading := 0, None;
      isHaveContentLengthResponse, isAddDataToCash, isDataGetCash := false, false, false;
      countByteReadFromCash, cashElement, error := 0, null, false;
      live := true;
    }

    method ReadFromSocket(binaryString: string) returns (ok: bool)
      requires Valid() && HasParsedRequest(State())
      modifies this, cash, cash.created
      ensures Valid()
      ensures old(cash.created) <= cash.created
      ensures forall i | |old(cash.created)| <= i < |cash.created| :: fresh(cash.created[i])
      ensures Out(State(), cash.State(), ok)
        == BufferSpec.ReadFromSocket(cash.hasher, old(State()), old(cash.State()), binaryString)
    {
      ValidIsWf();
      Receive(binaryString);
      hide CashImpl.State, CashImpl.Valid, CashImpl.Has, OnRequestHeading, OnRequestBody, OnResponseHeading,
        OnResponseBody, Scan, Cache.Wf;
      ok := true;
      if statusClient.WriteRequestHeading? {
        ok := WrightRequestHeading();
      } else if statusClient.WriteRequestBody? {
        WrightRequestBody(binaryString);
      } else if statusHttpServer.WriteResponseHeading? {
        WrightResponseHeading();
      } else if statusHttpServer.WriteResponseBody? {
        WrightResponseBody(binaryString);
      }
    }

    method Receive(binaryString: string)
      requires Valid()
      modifies `buf
      ensures Valid() && State() == BufferSpec.Receive(old(State()), binaryString)
    {
      if !isClientConnect && statusHttpServer.WriteResponseBody? {
        buf := "";
      } else {
        buf := buf + binaryString;
      }
    }

    method WrightRequestHeading() returns (ok: bool)
      requires Valid() && statusClient.WriteRequestHeading?
      modifies this, cash, cash.created
      ensures Valid()
      ensures old(cash.created) <= cash.created
      ensures forall i | |old(cash.created)| <= i < |cash.created| :: fresh(cash.created[i])
      ensures Out(State(), cash.State(), ok) == OnRequestHeading(cash.hasher, old(State()), old(cash.State()))
    {
      hide CashImpl.State, CashImpl.Valid, CashImpl.Has, Cache.Wf, FindEndHeading, ParsingHeading, OnParsedRequest;
      ValidIsWf();
      var posEndHeading := FindEndHeading(buf);
      if posEndHeading.None? {
        return true;
      }
      var heading := buf[..posEndHeading.value];
      var parsed := ParsingHeading(heading);
      if parsed.None? {
        Refuse(heading);
        return false;
      }
      ServeRequest(heading, parsed.value);
      return true;
    }

    /** The `catch` of `parsHead`. */
    method Refuse(heading: string)
      requires Valid() && statusClient.WriteRequestHeading?
      modifies `requestHeading, `buf, `statusClient, `isReadyToSend, `isEndSend, `error
      ensures Valid()
      ensures requestHeading == heading && buf == INCORRECT_HEADING && statusClient == ReadResponse
      ensures isReadyToSend && isEndSend && error
    {
      requestHeading := heading;
      buf := INCORRECT_HEADING;
      statusClient := ReadResponse;
      isReadyToSend, isEndSend, error := true, true, true;
    }

    /** Lines 31-54: a hit makes the client a reader, a miss asks for a connection to the origin. */
    method ServeRequest(heading: string, parsed: ParseResult)
      requires Valid() && statusClient.WriteRequestHeading? && |heading| <= |buf|
      modifies this, cash, cash.created
      ensures Valid()
      ensures old(cash.created) <= cash.created
      ensures forall i | |old(cash.created)| <= i < |cash.created| :: fresh(cash.created[i])
      ensures Out(State(), cash.State(), true)
        == OnParsedRequest(cash.hasher, old(State()), old(cash.State()), heading, parsed)
    {
      ValidIsWf();
      var found := cash.IsElementInCash(heading);
      hide StartReading, StartRelay, CashImpl.State, CashImpl.Valid, Find, Scan, AddUsers;
      if found {
        ReadFromCash(heading, parsed);
      } else {
        RelayToOrigin(heading, parsed);
      }
    }

    method ReadFromCash(heading: string, parsed: ParseResult)
      requires Valid() && statusClient.WriteRequestHeading? && Contains(cash.State(), cash.hasher(heading))
      modifies this, cash, cash.created
      ensures Valid()
      ensures old(cash.created) <= cash.created
      ensures forall i | |old(cash.created)| <= i < |cash.created| :: fresh(cash.created[i])
      ensures var (c, hit) := Find(old(cash.State()), cash.hasher(heading));
        && hit.Some? && cash.State() == AddUsers(c, hit.value, 1)
        && State() == StartReading(old(State()), heading, parsed, hit.value)
    {
      var element := TakeElement(heading);
      hide CashImpl.State, CashImpl.Valid, Cache.Wf, Find, Scan, AddUsers;
      JoinReaders(heading, parsed, element);
    }

    method TakeElement(heading: string) returns (element: CashElementImpl)
      requires Valid() && Contains(cash.State(), cash.hasher(heading))
      modifies cash, cash.created
      ensures cash.Valid() && cash.Has(element) && cash.created == old(cash.created)
      ensures var (c, hit) := Find(old(cash.State()), cash.hasher(heading));
        hit == Some(element.id) && cash.State() == AddUsers(c, element.id, 1)
    {
      element := cash.FindResponseInCash(heading);
      hide CashImpl.State, Cache.Wf, Find, Scan;
      cash.CountUser(element);
    }

    method JoinReaders(heading: string, parsed: ParseResult, element: CashElementImpl)
      requires Valid() && cash.Has(element) && statusClient.WriteRequestHeading?
      modifies this
      ensures Valid() && State() == StartReading(old(State()), heading, parsed, element.id)
    {
      SetRequest(heading, parsed);
      StartFromElement(element);
    }

    method StartFromElement(element: CashElementImpl)
      requires Valid() && cash.Has(element) && statusClient.WriteRequestHeading?
      modifies `isDataGetCash, `cashElement, `buf, `statusClient
      ensures Valid() && isDataGetCash && cashElement == element && buf == "" && statusClient == ReadResponse
    {
      isDataGetCash := true;
      cashElement := element;
      buf := "";
      statusClient := ReadResponse;
    }

    method SetRequest(heading: string, parsed: ParseResult)
      requires Valid()
      modifies `requestHeading, `resultParseHeading
      ensures Valid() && requestHeading == heading && resultParseHeading == Some(parsed)
    {
      requestHeading := heading;
      resultParseHeading := Some(parsed);
    }

    method RelayToOrigin(heading: string, parsed: ParseResult)
      requires Valid() && statusClient.WriteRequestHeading? && |heading| <= |buf|
      modifies this
      ensures Valid() && State() == StartRelay(old(State()), heading, parsed)
    {
      SetRequest(heading, parsed);
      FrameRequest(parsed);
    }

    /** Lines 42-54. */
    method FrameRequest(parsed: ParseResult)
      requires Valid() && statusClient.WriteRequestHeading? && |requestHeading| <= |buf|
      modifies `isReadyConnectHttpServer, `isReadyToSend, `statusClient, `lengthBody, `isEndSend
      ensures Valid()
      ensures var b := StartRelay(old(State()), requestHeading, parsed);
        && isReadyConnectHttpServer == b.isReadyConnectHttpServer && isReadyToSend == b.isReadyToSend
        && statusClient == b.statusClient && lengthBody == b.lengthBody && isEndSend == b.isEndSend
    {
      hide CashImpl.State, CashImpl.Valid, CashImpl.Has, Cache.Wf;
      isReadyConnectHttpServer := true;
      isReadyToSend := true;
      if parsed.kind.GetRequest? {
        isEndSend := true;
      } else {
        statusClient := WriteRequestBody;
        lengthBody := parsed.contentLength;
        lengthBody := lengthBody - (|buf| - |requestHeading|);
        if lengthBody <= 0 {
          isEndSend := true;
        }
      }
    }

    method WrightRequestBody(binaryString: string)
      requires Valid()
      modifies `isReadyToSend, `lengthBody, `isEndSend
      ensures Valid() && State() == OnRequestBody(old(State()), binaryString)
    {
      hide CashImpl.Valid, CashImpl.State, CashImpl.Has, Cache.Wf;
      isReadyToSend := true;
      lengthBody := lengthBody - |binaryString|;
      if lengthBody <= 0 {
        isEndSend := true;
      }
    }

    method WrightResponseHeading()
      requires Valid() && !isDataGetCash && resultParseHeading.Some?
      modifies this, cash, cash.created
      ensures Valid()
      ensures old(cash.created) <= cash.created
      ensures forall i | |old(cash.created)| <= i < |cash.created| :: fresh(cash.created[i])
      ensures Out(State(), cash.State(), true) == OnResponseHeading(cash.hasher, old(State()), old(cash.State()))
    {
      hide CashImpl.State, CashImpl.Valid, CashImpl.Has, BufferSpec.OpenElement, MarkEnd, Cache.Wf, Scan,
        FindEndHeading, ParsingResponseHeading, Wf;
      ValidIsWf();
      ghost var b := State();
      var posEndHeading := FindEndHeading(buf);
      if posEndHeading.None? {
        return;
      }
      var responseHead := buf[..posEndHeading.value];
      var response := ParsingResponseHeading(responseHead);
      ghost var offer := BufferSpec.OpenElement(cash.hasher, b, cash.State(), responseHead, response).1;
      OpenElement(responseHead, response);
      OfferThenHeading(b, posEndHeading.value, response, offer);
      hide AfterHeading;
      StartBody(posEndHeading.value, response);
    }

    predicate IsCashingData(response: ParseResult)
      requires resultParseHeading.Some?
      reads this
      ensures IsCashingData(response) == BufferSpec.IsCashingData(State(), response)
    {
      && !response.responseWithError
      && |buf| + response.contentLength < SIZE_EACH_CASH_ELEMENT
      && resultParseHeading.value.kind.GetRequest?
      && response.haveContentLength
    }

    /** Lines 72-84. */
    method OpenElement(responseHead: string, response: ParseResult)
      requires Valid() && !isDataGetCash && resultParseHeading.Some?
      modifies `isAddDataToCash, `cashElement, cash, cash.created
      ensures Valid()
      ensures cash.created == old(cash.created)
        || (cashElement != null && fresh(cashElement) && cash.created == old(cash.created) + [cashElement])
      ensures var (c, offer) :=
          BufferSpec.OpenElement(cash.hasher, old(State()), old(cash.State()), responseHead, response);
        && cash.State() == c
        && State() == WithOffer(old(State()), offer)
    {
      hide CashImpl.State, CashImpl.Valid, CashImpl.Has, BufferSpec.Publish, Cache.Wf, Contains,
        BufferSpec.IsCashingData, IsCashingData;
      var found := cash.IsElementInCash(requestHeading);
      if IsCashingData(response) && !found {
        AddElement(response.contentLength + |responseHead|);
      }
    }

    method AddElement(size: nat)
      requires Valid() && !isDataGetCash && resultParseHeading.Some?
      modifies `isAddDataToCash, `cashElement, cash, cash.created
      ensures Valid()
      ensures cash.created == old(cash.created)
        || (cashElement != null && fresh(cashElement) && cash.created == old(cash.created) + [cashElement])
      ensures var (c, id) :=
          BufferSpec.Publish(old(cash.State()), requestHeading, cash.hasher(requestHeading), size, buf);
        cash.State() == c && State() == WithOffer(old(State()), Some(id))
    {
      hide CashImpl.State, CashImpl.Valid, BufferSpec.Publish, Cache.Wf, Scan;
      var element := Publish(size);
      SetElement(element);
    }

    method SetElement(element: CashElementImpl?)
      requires Valid() && !isDataGetCash && (element != null ==> cash.Has(element))
      modifies `isAddDataToCash, `cashElement
      ensures Valid() && cashElement == element && isAddDataToCash == (element != null)
    {
      cashElement := element;
      isAddDataToCash := element != null;
    }

    method Publish(size: nat) returns (element: CashElementImpl?)
      requires Valid()
      modifies cash, cash.created
      ensures cash.Valid()
      ensures cash.created == if element == null then old(cash.created) else old(cash.created) + [element]
      ensures var (c, id) :=
          BufferSpec.Publish(old(cash.State()), requestHeading, cash.hasher(requestHeading), size, buf);
        && cash.State() == c
        && (element == null <==> id.None?)
        && (element != null ==> fresh(element) && cash.Has(element) && id == Some(element.id))
    {
      element := cash.AddStringToCash(requestHeading, size);
      if element != null {
        cash.AppendTo(element, buf);
        cash.SetDownloadEndOf(element, false);
        cash.SetServerConnectOf(element, true);
      }
    }

    /** Lines 86-107. */
    method StartBody(headLength: nat, response: ParseResult)
      requires Valid() && !isDataGetCash && headLength <= |buf|
      modifies this, cash.created`isDownloadEnd
      ensures Valid()
      ensures var b := AfterHeading(old(State()), headLength, response, None);
        State() == b && Wf(b, old(cash.State())) && cash.State() == MarkEnd(b, old(cash.State()))
    {
      hide CashImpl.State, CashImpl.Valid, CashImpl.Has, Cache.Wf, MarkEnd, FindEndBody;
      FrameResponse(headLength, response);
      MarkDownloadEnd();
    }

    method FrameResponse(headLength: nat, response: ParseResult)
      requires Valid() && !isDataGetCash && headLength <= |buf|
      modifies `isReadyToSend, `statusHttpServer, `isHaveContentLengthResponse, `lengthBody, `isEndSend
      ensures Valid()
      ensures var b := AfterHeading(old(State()), headLength, response, None);
        && isReadyToSend == b.isReadyToSend && statusHttpServer == b.statusHttpServer
        && isHaveContentLengthResponse == b.isHaveContentLengthResponse
        && lengthBody == b.lengthBody && isEndSend == b.isEndSend
    {
      hide CashImpl.State, CashImpl.Valid, CashImpl.Has, Cache.Wf, FindEndBody;
      isReadyToSend := true;
      statusHttpServer := WriteResponseBody;
      isHaveContentLengthResponse := response.haveContentLength;
      if isHaveContentLengthResponse {
        lengthBody := response.contentLength;
        lengthBody := lengthBody - (|buf| - headLength);
        if lengthBody <= 0 {
          isEndSend := true;
        }
      } else {
        var posEnd := FindEndBody(buf);
        if posEnd.Some? {
          isEndSend := true;
        }
      }
    }

    /** Lines 95-97 and 121-123: the announced length is exhausted, so the download is over. */
    method MarkDownloadEnd()
      requires Valid()
      modifies cash.created`isDownloadEnd
      ensures Valid() && Wf(State(), old(cash.State()))
      ensures cash.State() == MarkEnd(State(), old(cash.State()))
    {
      hide CashImpl.State, CashImpl.Valid, Cache.Wf;
      ValidIsWf();
      if isHaveContentLengthResponse && lengthBody <= 0 {
        if isAddDataToCash {
          cash.SetDownloadEndOf(cashElement, true);
        }
      }
    }

    method WrightResponseBody(binaryString: string)
      requires Valid()
      modifies this, cash.created`cash, cash.created`isDownloadEnd
      ensures Valid()
      ensures Wf(old(State()), old(cash.State()))
      ensures Out(State(), cash.State(), true) == OnResponseBody(old(State()), old(cash.State()), binaryString)
    {
      hide CashImpl.State, CashImpl.Valid, Cache.Wf, AfterBody, MarkEnd, Append;
      ValidIsWf();
      if isAddDataToCash {
        cash.AppendTo(cashElement, binaryString);
      }
      CountBody(|binaryString|);
      MarkDownloadEnd();
    }

    method CountBody(length: nat)
      requires Valid()
      modifies `isReadyToSend, `lengthBody, `isEndSend
      ensures Valid() && State() == AfterBody(old(State()), length)
    {
      hide CashImpl.State, CashImpl.Valid, CashImpl.Has, Cache.Wf, FindEndBody;
      isReadyToSend := true;
      if isHaveContentLengthResponse {
        lengthBody := lengthBody - length;
        if lengthBody <= 0 {
          isEndSend := true;
        }
      } else {
        var posEnd := FindEndBody(buf);
        if posEnd.Some? {
          isEndSend := true;
        }
      }
    }

    /** The bytes of the next write. `binaryString` is what the caller's string holds before. */
    method SendBuf(binaryString: string) returns (r: string)
      requires Valid()
      ensures r == BufferSpec.SendBuf(State(), cash.State(), binaryString)
    {
      r := binaryString;
      if isDataGetCash {
        var length := cashElement.GetLength();
        if length > countByteReadFromCash {
          if length >= countByteReadFromCash + BUF_SIZE - 1 {
            r := cashElement.MemCopyFromCash(countByteReadFromCash, BUF_SIZE - 1);
          } else {
            r := cashElement.MemCopyFromCash(countByteReadFromCash, length - countByteReadFromCash);
          }
        }
      } else {
        if |buf| >= BUF_SIZE - 1 {
          r := buf[..BUF_SIZE - 1];
        } else {
          r := buf[..|buf|];
        }
      }
    }

    method ProofSend(binaryString: string)
      requires Valid() && (!isDataGetCash ==> |binaryString| <= |buf|)
      modifies `buf, `countByteReadFromCash, `isReadyToSend, `isEndSend, `statusClient, `statusHttpServer, `error
      ensures Valid() && Wf(old(State()), cash.State())
      ensures State() == BufferSpec.ProofSend(old(State()), cash.State(), binaryString)
    {
      ValidIsWf();
      if isDataGetCash {
        NoteRead(|binaryString|);
      } else {
        Drain(|binaryString|);
      }
      hide CashImpl.State, CashImpl.Valid, AfterDrain, ProofSendFromCache;
    }

    method NoteRead(length: nat)
      requires Valid() && isDataGetCash
      modifies `countByteReadFromCash, `isReadyToSend, `isEndSend, `statusClient, `error
      ensures Valid()
      ensures State() == ProofSendFromCache(old(State()), cashElement.State(), length)
    {
      CountSent(length);
      hide CashImpl.State, CashImpl.Valid;
    }

    method Drain(length: nat)
      requires Valid() && !isDataGetCash && length <= |buf|
      modifies `buf, `isReadyToSend, `isEndSend, `statusClient, `statusHttpServer
      ensures Valid() && State() == AfterDrain(old(State()).(buf := old(buf)[length..]))
    {
      hide CashImpl.State, CashImpl.Valid, CashImpl.Has, Cache.Wf, AfterDrain;
      DropSent(length);
      AfterDrainOnlyFlags(State());
      FinishIfDrained();
    }

    method DropSent(length: nat)
      requires Valid() && length <= |buf|
      modifies `buf
      ensures Valid() && State() == old(State()).(buf := old(buf)[length..])
    {
      buf := buf[length..];
    }

    /** Lines 173-183. */
    method CountSent(length: nat)
      requires Valid() && isDataGetCash
      modifies `countByteReadFromCash, `isReadyToSend, `isEndSend, `statusClient, `error
      ensures Valid()
      ensures var b := ProofSendFromCache(old(State()), cashElement.State(), length);
        && countByteReadFromCash == b.countByteReadFromCash && isReadyToSend == b.isReadyToSend
        && isEndSend == b.isEndSend && statusClient == b.statusClient && error == b.error
    {
      hide CashImpl.State, CashImpl.Valid, CashImpl.Has, Cache.Wf;
      countByteReadFromCash := countByteReadFromCash + length;
      var available := cashElement.GetLength();
      if available == countByteReadFromCash {
        isReadyToSend := false;
      }
      if cashElement.isDownloadEnd {
        isEndSend := true;
        statusClient := EndWork;
      } else if !cashElement.isServerConnected {
        error := true;
      }
    }

    /** Lines 188-211. */
    method FinishIfDrained()
      requires Valid() && !isDataGetCash
      modifies `isReadyToSend, `isEndSend, `statusClient, `statusHttpServer
      ensures Valid()
      ensures var b := AfterDrain(old(State()));
        && isReadyToSend == b.isReadyToSend && isEndSend == b.isEndSend
        && statusClient == b.statusClient && statusHttpServer == b.statusHttpServer
    {
      hide CashImpl.State, CashImpl.Valid, CashImpl.Has, Cache.Wf;
      if buf == "" && !isEndSend {
        isReadyToSend := false;
      }
      if buf == "" && isEndSend {
        if statusClient.ReadResponse? && error {
          statusClient := EndWork;
          isEndSend := false;
          return;
        }
        if statusHttpServer.ReadRequest? {
          statusClient := ReadResponse;
          statusHttpServer := WriteResponseHeading;
          isEndSend := false;
        } else if statusClient.ReadResponse? {
          statusClient := EndWork;
          statusHttpServer := EndWork;
          isEndSend := true;
        }
        isReadyToSend := false;
      }
    }

    method IsReadyToSend() returns (ready: bool)
      requires Valid()
      modifies `isReadyToSend
      ensures Valid() && State() == RefreshReady(old(State()), cash.State()) && ready == State().isReadyToSend
    {
      if !isReadyToSend && isDataGetCash && |cashElement.cash| > countByteReadFromCash {
        isReadyToSend := true;
      }
      ready := isReadyToSend;
    }

    method ClearReadyConnect()
      requires Valid()
      modifies `isReadyConnectHttpServer
      ensures Valid() && State() == old(State()).(isReadyConnectHttpServer := false)
    {
      isReadyConnectHttpServer := false;
    }

    method OpenServer()
      requires live
      modifies `isServerConnect
      ensures isServerConnect
    {
      isServerConnect := true;
    }

    method CloseClient()
      requires Valid()
      modifies `statusClient, `isClientConnect
      ensures Valid() && !isClientConnect && statusClient == EndWork
      ensures State() == old(State()).(statusClient := EndWork, isClientConnect := false)
    {
      statusClient := EndWork;
      isClientConnect := false;
    }

    method CloseServer()
      requires Valid()
      modifies `statusHttpServer, `isServerConnect
      ensures Valid() && !isServerConnect && statusHttpServer == EndWork
      ensures State() == old(State()).(statusHttpServer := EndWork, isServerConnect := false)
    {
      statusHttpServer := EndWork;
      isServerConnect := false;
    }

    /** `delete`: the buffer must not be used afterwards. */
    ghost method Delete()
      requires live
      modifies `live
      ensures !live && State() == old(State())
    {
      live := false;
    }
  }
}
