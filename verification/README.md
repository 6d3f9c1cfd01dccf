# A verified model of isaac

This project models the parts of the isaac header library that hold state, branching and arithmetic, and proves what
they promise. `dafny verify dfyconfig.toml` checks all of it.

* **epoll on Windows.** `TreeLinks`, `TreeColours`, `TreeEdits`, `TreeSearch` and `RedBlackTree` are the intrusive
  red-black tree, a class whose methods store into nodes in place; `Queue` is the intrusive circular queue. `PortModel`,
  `PortProofs` and `PortRuns` are the port, its sockets and its poll groups (`PollGroups`, `EpollEvents`) as a system of
  locked operations, with the operating system free to accept, refuse or cancel and owing one completion for every poll it
  accepted; `PortReports` says exactly what is reported and what an interest is, `PortWaits` that nobody waits in vain.
  `Reflock` is the handle tree with its reader/writer lock and the reference lock, step by atomic step.
* **HTTP.** `HttpAutomaton` is the parser byte by byte, `HttpConsumer` the context behind its callbacks. `HttpExecute` is
  `http_parser_execute` itself, with marks, bulk loops and callbacks, proved to end as the byte-wise automaton does; from
  this follows that the way data is cut does not matter. What runs of bytes mean is said apart from the automaton:
  `HttpRequestLine` and `HttpTargets` for the request line, `HttpHeaderLines`, `HttpListValues`, `HttpLengths` and
  `HttpTransfer` for header lines and what they decide, `HttpFraming` and `HttpTrailers` for bodies, `HttpResponses` for
  responses, `HttpCorners` for the rarer ways. `HttpRoundTrip`, `HttpResponseTrip` and `HttpExchange` are the printers, and
  whether what they print is read back.
* **QR codes.** `QrField` and `ReedSolomon` are the field arithmetic and the error correction, `QrBlocks` splitting and
  interleaving, `QrPlacement` scan, masks and format bits, `QrFormat` the format words, `QrSegments` and `QrEncode` the bits
  of a text, `QrSymbol` all of it together.
* **Big numbers.** `BigLimbs`, `BigCompare` and `Bigint` are the multi-limb integers of the bundled formatting library.
* **Ciphers, base64, hashes.** `Base64`, `BlockCipher`, `IslamCipher`, `BlockHash`, `Md5`, `Sm3`. The round trips hold
  whatever the cipher tables contain; `Sm4Standard` and `Sm4Tables` tie both ciphers to SM4 with the tables they have. The
  compression functions of the hashes are parameters.

The sections of standards meant are: sections 6.5 to 7.9 of ISO/IEC 18004:2015, sections 3.2, 3.3, 4.1, 6.1 and 6.3 of
RFC 7230, sections 3.1 and 3.2 of RFC 1321, section 4 of RFC 4648, and sections 6 and 7 of GB/T 32907-2016 (SM4).

## Model

| member | source | states |
|---|---|---|
| RedBlackTree.Tree.Add | isaac/ys_wepoll.h:1978-2025 | Inserting in place keeps every red-black and pointer invariant; a duplicate key changes nothing and is refused; otherwise the key map gains exactly this node. |
| RedBlackTree.Tree.Del | isaac/ys_wepoll.h:2055-2146 | Deleting any node of the tree keeps every red-black and pointer invariant, removes exactly that node's key and keeps every other node; the rebalancing loop ends. |
| RedBlackTree.Tree.Find | isaac/ys_wepoll.h:2148-2161 | Lookup agrees with the finite map of all adds and deletes and visits at most 2 log2(n + 1) nodes. |
| RedBlackTree.Tree.Rotate | isaac/ys_wepoll.h:1910-1942 | A rotation by pointer stores keeps key order and parent/child agreement and every key, for both mirror images. |
| RedBlackTree.Tree.RebalanceInsert | isaac/ys_wepoll.h:1953-2022 | One turn of the insertion repair either finishes a valid tree or moves the one red pair two levels up. |
| RedBlackTree.Tree.UnlinkDouble | isaac/ys_wepoll.h:2055-2115 | Replacing a node with two children by its successor leaves a search tree with one hole at the place the successor left. |
| RedBlackTree.Tree.RebalanceRemove | isaac/ys_wepoll.h:2027-2145 | One turn of the deletion repair either restores equal black heights or moves the hole to the parent. |
| TreeColours.SiblingExists | isaac/ys_wepoll.h:2027-2053 | In the deletion repair the sibling is never null, so no store goes through a null pointer. |
| TreeSearch.ViewIsRedBlack | isaac/ys_wepoll.h:1978-2146 | The invariant the operations keep is the textbook one: ordered, no red node has a red child, equal black heights, a black root, over exactly the tree's nodes. |
| TreeSearch.HeightBound | isaac/ys_wepoll.h:2148-2161 | The black height of a valid tree with n nodes is at most log2(n + 1). |
| TreeSearch.Log2Greatest | isaac/ys_wepoll.h:2148-2161 | Log2 is the greatest exponent whose power of two does not exceed its argument, so the bound on Find is the logarithm meant. |
| Queue.Queue.Append | isaac/ys_wepoll.h:1379-1385 | Relinking four pointers puts a node last and leaves the others in order, forwards and backwards. |
| Queue.Queue.Prepend | isaac/ys_wepoll.h:1371-1377 | Relinking four pointers puts a node first and leaves the others in order. |
| Queue.Queue.Remove | isaac/ys_wepoll.h:1399-1403 | A node is taken out wherever it stands and reads as not enqueued afterwards; the others keep their order. |
| Queue.Queue.MoveToStart | isaac/ys_wepoll.h:1387-1391 | A node already in the queue becomes first; the others keep their order. |
| Queue.Queue.MoveToEnd | isaac/ys_wepoll.h:1393-1397 | A node already in the queue becomes last; the others keep their order. |
| Queue.Queue.NodesEnqueued | isaac/ys_wepoll.h:1410-1413 | Every node of a queue reads as enqueued, also when it is the only one. |
| PollGroups.WithoutAt | isaac/ys_wepoll.h:1355-1403 | What the linked queue does when it detaches a node is what Without does to the sequence of addresses the port keeps for it. |
| PollGroups.AcquireOk | isaac/ys_wepoll.h:866-885 | Taking a place keeps full groups in front; a new group is made only when every group is full, so looking at the last group alone never misses a free place. |
| PollGroups.ReleaseOk | isaac/ys_wepoll.h:887-900 | Giving a place back keeps full groups in front and leaves the group with room. |
| EpollEvents.WatchesExactly | isaac/ys_wepoll.h:1628-1670 | A poll submitted for an interest watches a driver event if and only if the user would be told of it. |
| EpollEvents.CoverWatches | isaac/ys_wepoll.h:1628-1648 | A poll that covers an interest watches at the driver all that a poll submitted for that interest would watch. |
| EpollEvents.CoversUnlessLacking | isaac/ys_wepoll.h:1493-1522 | A pending poll covers an interest exactly if it lacks none of the eleven events of epoll that the library knows. |
| PortProofs.UpdateCore | isaac/ys_wepoll.h:1672-1740 | An update keeps every invariant and shortens the update queue, or the system refused and nothing changed; so draining the queue ends. |
| PortProofs.DeleteCore | isaac/ys_wepoll.h:1566-1608 | Deleting a socket keeps every invariant; its state is freed exactly when forced or when its poll is idle. |
| PortRuns.FeedInv | isaac/ys_wepoll.h:1742-1802 | Every completion names a socket state that is still allocated, and taking it in keeps every invariant. |
| PortRuns.NoLostInterest | isaac/ys_wepoll.h:1016-1034 | In every reachable state a registered socket waits for an update, or a completion is on its way and its poll was cancelled or watches all the user wants. |
| PortRuns.DrainedInterest | isaac/ys_wepoll.h:1016-1040 | After a drain that the system does not refuse, every registered socket has a completion on its way that makes good its interest. |
| PortWaits.WatchedWhileWaiting | isaac/ys_wepoll.h:1016-1100 | Nobody waits in vain: if the system cancels when asked and refuses bad handles only, then in every reachable state in which some thread waits the update queue is empty and every registered socket has a completion on its way that looks after its interest. |
| PortWaits.ClosedForgotten | isaac/ys_wepoll.h:1742-1778 | A socket that the driver reports closed, or that was deleted before, is forgotten with its completion: handle, state, queues and place in its group. |
| PortWaits.DeleteCancels | isaac/ys_wepoll.h:1566-1598 | Deleting a socket whose poll is pending cancels that poll, takes the handle away and keeps the state for its completion. |
| PortRuns.Lifetimes | isaac/ys_wepoll.h:1566-1598 | In every reachable state an outstanding completion has its socket state allocated, deleted states are exactly those in the deleted queue, no state is in two queues, and each group counts exactly its sockets. |
| PortRuns.GroupsNeeded | isaac/ys_wepoll.h:866-900 | k groups exist only if at some moment of the run a socket was being taken up beside at least 32 (k - 1) others; full groups form a prefix of the queue. |
| PortRuns.PeakHeld | isaac/ys_wepoll.h:1524-1564 | The peak the model records was really held: some prefix of the run ends just before the attempt that reached it. |
| PortRuns.ReportsWanted | isaac/ys_wepoll.h:1742-1802 | A reported event is a non-empty subset of what the user asked for, with the user's data, and never for a deleted socket; a one-shot socket then wants nothing. |
| PortReports.HitsBrought | isaac/ys_wepoll.h:1650-1670 | Which events a completion brings, told driver bit by driver bit: an event is reported exactly if it is wanted and one of its sources is set; a failed poll brings the error. |
| PortReports.FeedReportsExactly | isaac/ys_wepoll.h:1742-1802 | Taking in a completion reports an event if and only if the completion brings one that is wanted by a registered socket; then it is exactly the wanted ones that it brings, with the data of the interest. |
| PortReports.FeedAllReports | isaac/ys_wepoll.h:1042-1060 | The same for every packet of a batch, whatever packets come with it. |
| PortReports.WaitReports | isaac/ys_wepoll.h:1042-1100 | A thread that comes back from waiting reports, for each completion it took in, exactly what that completion brings: nothing is missed and nothing made up. |
| PortReports.ModSetsInterest | isaac/ys_wepoll.h:1203-1217 | Modifying makes the interest exactly the events asked for with errors and hang-ups, and the data the one given. |
| PortReports.AddRegisters | isaac/ys_wepoll.h:1184-1201 | Adding registers the handle, with the interest and data given, if and only if it is valid and new and there is room and memory; otherwise nothing is registered. |
| PortReports.DelUnregisters | isaac/ys_wepoll.h:1219-1228 | Deleting takes this handle out of the tree and touches no other. |
| PortReports.InterestKept | isaac/ys_wepoll.h:1610-1626 | Over every operation a socket that stays keeps its handle, its data and its interest, but for its own modification and a one-shot report. |
| PortRuns.ReportSilences | isaac/ys_wepoll.h:1042-1060 | A locked wait that reports a one-shot socket, among any other packets and with the update pass after it, ends with that socket wanting nothing. |
| PortRuns.OneShotSilence | isaac/ys_wepoll.h:1610-1626 | A quiet socket is not reported by any operation, and any operation but its own modification leaves it quiet. |
| PortRuns.OneShotOnce | isaac/ys_wepoll.h:1742-1802 | After a one-shot report no later operation of any run reports the socket, until its handle is modified or its state is freed. |
| PortRuns.DeletePort | isaac/ys_wepoll.h:981-1014 | Deleting a port ends with no socket, empty queues and every group at size nought, so the asserts when groups are freed hold. |
| Reflock.EveryAssertHolds | isaac/ys_wepoll.h:1457-1491 | Along every interleaving of create, ctl, wait and close every assert of the reference lock holds. |
| Reflock.NoLateReference | isaac/ys_wepoll.h:1875-1888 | A reference is taken only on a node still in the tree that no thread is about to destroy. |
| Reflock.DestroyedAlone | isaac/ys_wepoll.h:1477-1491 | Once a destroyer is past its wait the node is out of the tree and no other thread names it. |
| Reflock.SignalledIffAwaited | isaac/ys_wepoll.h:1466-1491 | When a node is freed exactly as many signals as waits have happened, at most one. |
| Reflock.WaitIsOwed | isaac/ys_wepoll.h:1466-1491 | A waiting destroyer has a signal coming: some other thread still holds a reference or is about to signal. |
| Reflock.NeverStuck | isaac/ys_wepoll.h:1441-1491 | In every reachable state with a thread inside a call some thread can move. |
| HttpAutomaton.SwitchMethod | isaac/ys_http_parser_ex.h:1351-1410 | Switching to another method name in mid-word never leaves the index past the end of the new name. |
| HttpRuns.AdvanceSound | isaac/ys_http_parser_ex.h:1048-2640 | Every byte in every state keeps the parser's own invariant on index, status, lengths, flags and matcher state. |
| HttpConsumer.EveryAssertHolds | isaac/ys_http_parser_ex.h:1651-2645 | From a fresh parser no run of bytes reaches a state in which an assert of the byte loop fails, and no counter leaves its range. |
| HttpConsumer.RunJoin | isaac/ys_http_parser_ex.h:975-2662 | Reading s then t is reading s + t, with the same error, the same upgrade point and the same consumer. |
| HttpConsumer.ReuseIsFresh | isaac/ys_http_parser.h:330-356 | A context used again after init starts with no headers exactly when it held no header name before. |
| HttpMarks.MarksAlwaysFit | isaac/ys_http_parser_ex.h:391-434 | Whatever the state and byte, at most one mark is set afterwards, and the state says which. |
| HttpMarks.ByteInStep | isaac/ys_http_parser_ex.h:391-434 | Collecting a piece behind a mark and delivering it later leaves the consumer as delivering byte by byte does. |
| HttpExecute.CountIsSound | isaac/ys_http_parser_ex.h:447-460 | Counting a bulk of header bytes at once finds what counting one by one finds exactly when the 32-bit sum does not wrap. |
| HttpExecute.ReadField | isaac/ys_http_parser_ex.h:1654-1800 | The inner loop over a header name ends where byte-wise reading would, with the same matcher state and the same limit on size. |
| HttpExecute.ReadValue | isaac/ys_http_parser_ex.h:1911-2180 | The inner loop over a header value, with its search for the line end, ends where byte-wise reading would. |
| HttpExecute.Connection.BodyState | isaac/ys_http_parser_ex.h:2447-2487 | Skipping through body bytes in bulk equals taking them one by one, to the last byte and the completion after it. |
| HttpExecute.Connection.Execute | isaac/ys_http_parser_ex.h:975-2662 | The whole of http_parser_execute with marks, bulk loops and callbacks ends as the byte-wise automaton does: same error verdict, same state, same consumer. |
| HttpExecute.Connection.Append | isaac/ys_http_parser.h:377-397 | Appending reports failure exactly when the bytes are refused, and completion exactly when the message is complete. |
| HttpExecute.Connection.AppendAll | isaac/ys_http_parser.h:377-443 | Fragmentation independence: however the bytes are cut, there is an error on the pieces exactly when there is one on the whole, and otherwise parser, URL, headers, body and completion are identical. |
| HttpCorners.KindDetected | isaac/ys_http_parser_ex.h:1067-1109 | A parser for either kind reads every message as the parser for its kind does: as a response if it begins with "HT", else as a request. |
| HttpCorners.StartSkipsLineEnds | isaac/ys_http_parser_ex.h:1111-1113 | Before a message any number of line ends is skipped. |
| HttpCorners.DeadTakesLineEnds | isaac/ys_http_parser_ex.h:1057-1065 | Behind the last message of a connection line ends are taken and anything else is refused. |
| HttpBodies.IdentityBulk | isaac/ys_http_parser_ex.h:2447-2480 | k body bytes of a longer identity body deliver exactly these k bytes and leave k fewer to read. |
| HttpBodies.ChunkBulk | isaac/ys_http_parser_ex.h:2586-2606 | k bytes of a chunk deliver exactly these k bytes and leave k fewer to read. |
| HttpFraming.IdentityBody | isaac/ys_http_parser_ex.h:2447-2480 | An identity body delivers exactly Content-Length bytes and completes once, not before the last. |
| HttpFraming.ChunkSizeRead | isaac/ys_http_parser_ex.h:2499-2553 | A chunk size is read exactly if and only if it is at most 2^64 - 17; the accumulator never wraps. |
| HttpFraming.SizeBytes | isaac/ys_http_parser_ex.h:2499-2513 | Exactly which bytes begin a chunk size: hexadecimal digits of either case, with their values, and every byte above 127, as a nought. |
| HttpCorners.ExtensionIgnored | isaac/ys_http_parser_ex.h:2555-2564 | What stands between a semicolon behind the chunk size and the line end makes no difference. |
| HttpFraming.ChunkedBody | isaac/ys_http_parser_ex.h:2499-2640 | Any list of non-empty chunks delivers exactly their concatenation and completes once. |
| HttpTrailers.TrailedRequest | isaac/ys_http_parser.h:67-113 | A chunked request with trailers is read to its body and completes once, but its last header is inserted twice and its last trailer never. |
| HttpTrailers.RightIfRepeated | isaac/ys_http_parser.h:67-113 | The headers end as sent if and only if the last trailer is the last header again. |
| HttpHeaderLines.LengthRead | isaac/ys_http_parser_ex.h:1978-2007 | A decimal Content-Length is read exactly if and only if it is at most 2^64 - 7; the accumulator never wraps. |
| HttpLengths.LengthLines | isaac/ys_http_parser_ex.h:1860-2007 | A Content-Length line, in any letter case, is taken if and only if it is the first and its value is a decimal number of at most 2^64 - 7 with nothing behind it but spaces; it is taken for that number. |
| HttpHeaderLines.NameRun | isaac/ys_http_parser_ex.h:1601-1800 | A header name in any letter case ends in the matcher state of the special name it equals, or in the general one. |
| HttpTargets.NameBytes | isaac/ys_http_parser_ex.h:1654-1805 | Exactly the bytes of a token, and the colon behind them, are taken in a header name. |
| HttpCorners.ValueBytes | isaac/ys_http_parser_ex.h:1911-1950 | In an ordinary value control bytes other than the tab are refused, unless the parser is lenient. |
| HttpCorners.FoldedLine | isaac/ys_http_parser_ex.h:2197-2230 | A line that begins with a blank goes on with the value before it, blank included. |
| HttpCorners.BareLineEnd | isaac/ys_http_parser_ex.h:1911-1950 | A value may end with a line feed alone, to the same effect. |
| HttpListValues.ListReads | isaac/ys_http_parser_ex.h:1911-2180 | What the matcher has made of a list of codings or options at its end, for every list: which items it looked at, which it passed over, and when it lost the list. |
| HttpListValues.ListEnds | isaac/ys_http_parser_ex.h:2197-2230 | At the end of such a line chunked is set exactly if the last coding was looked at and is "chunked", and the options are those of all items. |
| HttpListValues.OptionsSeen | isaac/ys_http_parser_ex.h:2070-2180 | close, keep-alive and upgrade are set exactly if some item that was looked at is that word, in any letter case. |
| HttpListValues.LastIsLive | isaac/ys_http_parser_ex.h:1911-2180 | When the last coding is looked at: no tab or underscore behind a comma, and nothing that begins "chunked" before it. |
| HttpTransfer.LineRun | isaac/ys_http_parser_ex.h:1601-2270 | Any header line is read to its pair, and changes framing and connection flags as its name and value say and in no other way. |
| HttpTransfer.BlockRun | isaac/ys_http_parser_ex.h:1601-2270 | The same for any block of header lines. |
| HttpTransfer.CollectedAll | isaac/ys_http_parser.h:67-113 | The headers collected are sorted and are exactly the pairs sent. |
| HttpTransfer.EffectsTell | isaac/ys_http_parser_ex.h:1825-2270 | What a head says, line by line: a coding, chunked, close, keep-alive, upgrade, a length. |
| HttpTransfer.LengthTold | isaac/ys_http_parser_ex.h:1860-1880 | The length is that of the one Content-Length line. |
| HttpTransfer.OrdinaryLists | isaac/ys_http_parser_ex.h:1911-2180 | In ordinary lists the body is chunked exactly if the last coding is "chunked", and an option counts exactly if it is among the items. |
| HttpTransfer.NotSeenChunked | isaac/ys_http_parser_ex.h:2043-2110 | Three lists that end in "chunked" and are not taken so. |
| HttpTransfer.EndDecides | isaac/ys_http_parser_ex.h:2277-2445 | What the empty line of a request decides, from what the headers said. |
| HttpTransfer.ChunkedRequest | isaac/ys_http_parser_ex.h:975-2662 | From a fresh parser: a request of any version whose last coding is "chunked", in any letter case, with any further lines, and its chunks, arrive whole and complete once; the body is the chunks joined, and the connection goes on or not as version and options have it. |
| HttpTransfer.SizedRequest | isaac/ys_http_parser_ex.h:975-2662 | The same for a request without codings: the body is what Content-Length says, or nothing. |
| HttpTransfer.BadCodingRefused | isaac/ys_http_parser_ex.h:2277-2445 | A request whose last coding is not "chunked", or with a coding beside a length, is refused at the end of its head. |
| HttpCorners.LenientDecides | isaac/ys_http_parser_ex.h:2277-2445 | What the empty line decides where the parser is lenient. |
| HttpCorners.UpgradedRequest | isaac/ys_http_parser_ex.h:2277-2480 | A request that asks for another protocol leaves the parser behind its last byte, delivered and completed once, whatever follows. |
| HttpRequestLine.MethodRun | isaac/ys_http_parser_ex.h:1277-1410 | Every method name but M-SEARCH is recognised as itself, through whatever other names its prefix suggests. |
| HttpRequestLine.MSearchRefused | isaac/ys_http_parser_ex.h:1351-1410 | A request whose method is printed from the table as M-SEARCH is refused. |
| HttpTargets.MethodsExact | isaac/ys_http_parser_ex.h:1277-1410 | A word without blanks is taken for a method if and only if it is the printed name of one other than M-SEARCH, and then for that one. |
| HttpRequestLine.OriginForm | isaac/ys_http_parser_ex.h:755-935 | Every origin-form or asterisk URL of printable bytes is accepted. |
| HttpTargets.UrlShape | isaac/ys_http_parser_ex.h:755-935 | The URLs accepted are exactly these: a path or asterisk and visible bytes, or a scheme, "://" and then an authority without "@@", a path or query, or both. |
| HttpTargets.UrlsExact | isaac/ys_http_parser_ex.h:1412-1485 | In a run: what stands between blanks is taken for the URL if and only if it has that shape. |
| HttpRequestLine.TopRun | isaac/ys_http_parser_ex.h:1277-1600 | A request line is read to its method, its URL and its version, for every version of two digits. |
| HttpCorners.SimpleLineEnds | isaac/ys_http_parser_ex.h:1456-1485 | A request line that ends behind its URL is one of HTTP/0.9. |
| HttpCorners.IceLine | isaac/ys_http_parser_ex.h:1487-1536 | The protocol of a SOURCE request may be named ICE, that of no other. |
| HttpRequestLine.RequestLineRun | isaac/ys_http_parser_ex.h:1277-1600 | A printed request line is read to its method, its URL and version 1.1. |
| HttpHeaders.InsertKeepsOrder | isaac/ys_http_parser.h:222-228 | Inserting keeps the multimap sorted. |
| HttpHeaders.LessIs | isaac/ys_http_parser.h:222-228 | The order of the multimap is the lexicographic one: the first byte that differs decides, or the shorter string comes first. |
| HttpHeaders.InsertGoesLast | isaac/ys_http_parser.h:222-228 | A pair goes behind those with an equal key and moves no others. |
| HttpHeaders.EraseLeaves | isaac/ys_http_parser.h:229-232 | Under every other key the pairs stay as they were, in their order. |
| HttpRoundTrip.SetHeaderSafe | isaac/ys_http_parser.h:222-228 | A name or value with a line end is not set, anything else is, and so no header ever breaks its line. |
| HttpHeaders.InsertAddsOne | isaac/ys_http_parser.h:222-228 | Inserting adds exactly one entry to the multimap. |
| HttpHeaders.EraseKeepsOthers | isaac/ys_http_parser.h:229-232 | Erasing a key removes exactly its entries. |
| HttpRoundTrip.HttpRequest.Format | isaac/ys_http_pkt.h:17-42 | format prints the request line, the completed headers and the body, and leaves the completed headers behind. |
| HttpRoundTrip.HttpRequest.FormatHeader | isaac/ys_http_parser.h:156-171 | The header lines come out in multimap order, with a Connection header added when there is none. |
| HttpRoundTrip.PreparedSays | isaac/ys_http_pkt.h:17-42 | What is printed under every key: the length of the body for POST and for a body, the headers set, and the default of Content-Type, Host and Connection where none is set. |
| HttpRoundTrip.HeadersKept | isaac/ys_http_parser.h:67-113 | The consumer's multimap, built one pair behind the parser, ends with the printed headers in the printed order, equal keys included. |
| HttpRoundTrip.RoundTrip | isaac/ys_http_pkt.h:17-42 | Parsing what format prints gives back method, URL, header multimap and body, and completes once. |
| HttpExchange.Exchange | isaac/ys_http_pkt.h:17-42 | The same for a printed request that a connection receives in any pieces. |
| HttpExchange.ReceiveChunked | isaac/ys_http_parser.h:377-443 | A chunked request received in any pieces arrives whole and completes once. |
| HttpResponses.StatusCodeRead | isaac/ys_http_parser_ex.h:1196-1242 | A status code is read as its number up to 999 and refused from there on. |
| HttpResponses.ReplyRun | isaac/ys_http_parser_ex.h:1111-1275 | A status line is read to its version, code and reason, for every version of two digits. |
| HttpResponses.ChunkedResponse | isaac/ys_http_parser_ex.h:975-2662 | A response whose last coding is "chunked" arrives whole and completes once, whatever its status. |
| HttpResponses.SizedResponse | isaac/ys_http_parser_ex.h:975-2662 | A response with a length arrives with that many bytes of body. |
| HttpResponses.OpenResponse | isaac/ys_http_parser_ex.h:942-971 | With neither, a response of status 1xx, 204 or 304 ends with its head, and every other goes on to the end of the connection. |
| HttpResponses.BothRefused | isaac/ys_http_parser_ex.h:2277-2300 | A coding beside a length is refused. |
| HttpResponseTrip.HttpResponse.Format | isaac/ys_http_pkt.h:117-147 | format prints the status line, the completed headers and the body. |
| HttpResponseTrip.FilledSays | isaac/ys_http_pkt.h:117-147 | What is printed under every key: the headers set, and the length and "close" where none is set. |
| HttpResponseTrip.ResponseReturns | isaac/ys_http_pkt.h:117-147 | A printed response is read back, complete and with its body, if and only if the Content-Length it was given, if any, is the length of the body; then status, reason and headers are back too. |
| HttpResponseTrip.LongStatusRefused | isaac/ys_http_parser_ex.h:1212-1242 | A response with a status above 999, printed, is refused. |
| HttpExchange.Respond | isaac/ys_http_pkt.h:117-147 | A printed response received in any pieces is read back. |
| HttpExchange.ReceiveOpen | isaac/ys_http_parser_ex.h:998-1019 | A response without a length, received in any pieces, is completed once by the end of the connection. |
| QrField.Multiply | isaac/ys_qrcode.h:1306-1317 | The shift-and-reduce loop computes multiplication in GF(2^8) modulo 0x11D. |
| QrField.MulCommutes | isaac/ys_qrcode.h:1306-1317 | Multiplication in the field commutes. |
| QrField.MulAssociates | isaac/ys_qrcode.h:1306-1317 | Multiplication in the field associates. |
| QrField.MulAdds | isaac/ys_qrcode.h:1306-1317 | Multiplication distributes over addition. |
| ReedSolomon.ComputeDivisor | isaac/ys_qrcode.h:1260-1285 | The in-place loop computes the product of (x - 2^i), leading coefficient dropped; degrees outside 1..255 are refused. |
| ReedSolomon.ComputeRemainder | isaac/ys_qrcode.h:1289-1301 | The shift-register loop computes the remainder of polynomial division. |
| ReedSolomon.GeneratorRoots | isaac/ys_qrcode.h:1260-1285 | The divisor of degree n vanishes at 2^0 .. 2^(n-1). |
| ReedSolomon.RemainderDivides | isaac/ys_qrcode.h:1289-1301 | Data followed by its remainder is a multiple of the divisor. |
| ReedSolomon.CodewordRoots | isaac/ys_qrcode.h:1260-1317 | Data followed by its remainder vanishes at every root of the divisor, for every data and degree. |
| QrBlocks.DataCount | isaac/ys_qrcode.h:987-1000 | The data the blocks hold together is the raw count less the error correction. |
| QrBlocks.AddEccAndInterleave | isaac/ys_qrcode.h:987-1026 | Data of the wrong size is refused; otherwise every byte of every block stands at its interleaved place and the total is the raw count. |
| QrBlocks.PlacesDiffer | isaac/ys_qrcode.h:1013-1023 | No two bytes of the blocks share a place. |
| QrBlocks.PlaceTaken | isaac/ys_qrcode.h:1013-1023 | Every place is taken by some byte of some block. |
| QrBlocks.ReadDataBack | isaac/ys_qrcode.h:987-1026 | De-interleaving gives the data codewords back. |
| QrPlacement.ScanIsOneToOne | isaac/ys_qrcode.h:1031-1060 | The zigzag visits no cell twice, stays inside the symbol and never enters column 6. |
| QrPlacement.ScanIsOnto | isaac/ys_qrcode.h:1031-1060 | The zigzag visits every cell outside column 6. |
| QrPlacement.QrCode.DrawCodewords | isaac/ys_qrcode.h:1031-1060 | The codewords' bits stand in the free cells in scan order; reserved cells and column 6 keep their colour. |
| QrPlacement.MaskTwice | isaac/ys_qrcode.h:1068-1110 | Masking twice is no change, and masking leaves reserved cells alone. |
| QrPlacement.Inverting | isaac/ys_qrcode.h:1076-1105 | The switch over the eight masks inverts the cells of the pictures of section 7.8.2, each repeated over the symbol. |
| QrPlacement.InvertsPicture | isaac/ys_qrcode.h:1076-1105 | Each mask is its picture: a tile of at most 6 by 6 modules, given by its rows, repeated in both directions. |
| QrPlacement.QrCode.ApplyMask | isaac/ys_qrcode.h:1068-1110 | Exactly the free cells the picture marks change colour; a mask out of range is refused. |
| QrPlacement.QrCode.DrawFormatBits | isaac/ys_qrcode.h:882-907 | Both copies of the format word and the dark module stand where section 7.9.1 has them. |
| QrFormat.FormatBits | isaac/ys_qrcode.h:882-891 | The loop computes the word that names its level and mask: unmasked it is a multiple of the generator 0x537 with the five data bits on top. |
| QrFormat.FormatWords | isaac/ys_qrcode.h:882-907 | The fifteen modules of each word, the lowest bit first, name the level and the mask they are drawn for. |
| QrFormat.NamesOnce | isaac/ys_qrcode.h:882-891 | A word names at most one level and mask. |
| QrFormat.FarApart | isaac/ys_qrcode.h:882-891 | Words for different levels or masks differ in at least seven bits. |
| QrPlacement.FormatAgain | isaac/ys_qrcode.h:882-907 | Drawing format bits over older ones leaves only the newer, and commutes with masking. |
| QrPlacement.QrCode.Finish | isaac/ys_qrcode.h:768-788 | The mask asked for, or the first of least penalty, is applied exactly once, with its own format bits. |
| QrPlacement.FinishedReadsBack | isaac/ys_qrcode.h:768-788 | Unmasking a finished symbol and scanning it reads what was drawn. |
| QrSegments.AppendBits | isaac/ys_qrcode.h:80-86 | A value is appended as its binary digits, most significant first, and refused exactly when it does not fit its length. |
| QrSegments.MakeNumeric | isaac/ys_qrcode.h:211-234 | The loop over groups of three digits yields the numeric segment of the text, or refuses a character that is no digit. |
| QrSegments.MakeAlphanumeric | isaac/ys_qrcode.h:242-265 | The loop over pairs yields the alphanumeric segment of the text, or refuses a character outside the set. |
| QrSegments.MakeBytes | isaac/ys_qrcode.h:197-205 | The loop yields the byte segment of the data, refused only past 2^31 - 1 bytes. |
| QrSegments.MakeSegments | isaac/ys_qrcode.h:272-290 | A text becomes one segment in the tightest mode that can hold it, none if empty. |
| QrSegments.PayloadReadsBack | isaac/ys_qrcode.h:197-265 | In all three modes the payload bits, read with the character count, give the text back. |
| QrSegments.CountFields | isaac/ys_qrcode.h:150-186 | The widths of the count fields are those of the standard for every mode and version. |
| QrSegments.CharValues | isaac/ys_qrcode.h:242-265 | The values of alphanumeric characters are those of the standard: digits, letters, then the nine signs. |
| QrEncode.GetTotalBits | isaac/ys_qrcode.h:435-451 | The total is the number of bits written, and missing exactly when a count does not fit its field or the sum does not fit an int. |
| QrEncode.Pad | isaac/ys_qrcode.h:687-696 | Terminator, alignment and alternating pad bytes reach exactly the capacity. |
| QrEncode.Pack | isaac/ys_qrcode.h:698-701 | Packing eight bits to a byte keeps every bit in its place. |
| QrEncode.Choose | isaac/ys_qrcode.h:646-674 | The smallest version in range that fits is chosen, and the error level is raised only as far as the data still fits. |
| QrEncode.DecodeAll | isaac/ys_qrcode.h:676-684 | Reading mode, count and payload repeatedly gives back every piece of text and stops at the terminator. |
| QrEncode.EncodeSegments | isaac/ys_qrcode.h:640-704 | Bad arguments and data that fits no version are told apart and refused; otherwise the codewords fill the smallest fitting version and carry the segments. |
| QrEncode.CodewordsReadBack | isaac/ys_qrcode.h:640-704 | Reading the packed codewords gives back exactly the pieces of text, padding ignored. |
| QrSymbol.DataRecovered | isaac/ys_qrcode.h:745-792 | Unmasking, scanning and de-interleaving a finished symbol recovers the data codewords. |
| QrSymbol.LevelBits | isaac/ys_qrcode.h:528-543 | The two bits of each error correction level are those the standard gives it. |
| QrSymbol.Construct | isaac/ys_qrcode.h:745-792 | The constructor refuses data of the wrong size and otherwise finishes a symbol that scans back to all its codewords. |
| QrSymbol.EncodeText | isaac/ys_qrcode.h:640-792 | From text to symbol: whatever is not refused is a symbol from which every reader gets exactly the text back. |
| Bigint.BigInt.Assign | isaac/fmt/format-inl.h:613-621 | The limbs denote the 64-bit value assigned. |
| Bigint.BigInt.Multiply | isaac/fmt/format-inl.h:569-578 | Multiplying limb by limb by a 32-bit value is exact, with no carry lost. |
| Bigint.BigInt.ShiftLeft | isaac/fmt/format-inl.h:625-638 | Shifting multiplies by the power of two, with no carry lost. |
| Bigint.BigInt.Square | isaac/fmt/format-inl.h:706-734 | The column sums and carries give the square, with an accumulator of 128 bits never overflowing. |
| Bigint.BigInt.AssignPow10 | isaac/fmt/format-inl.h:687-704 | The bitmask loop, squaring and multiplying by five, then shifting, denotes exactly 10^e. |
| Bigint.BitmaskFits | isaac/fmt/format-inl.h:690-693 | The doubled bitmask passes the exponent before it leaves an int exactly for exponents below 2^30. |
| BigCompare.Compare | isaac/fmt/format-inl.h:646-660 | compare returns the sign of the difference whenever the values differ, and on equal values the sign of the difference in limb counts. |
| BigCompare.EqualButUnlike | isaac/fmt/format-inl.h:646-660 | Two representations of 2^32 that compare tells apart. |
| BigCompare.AddCompare | isaac/fmt/format-inl.h:663-684 | add_compare returns exactly the sign of lhs1 + lhs2 - rhs for any exponents, despite its early exits. |
| Bigint.BigInt.SubtractAligned | isaac/fmt/format-inl.h:544-567 | The difference is exact if and only if nothing is borrowed from above the subtrahend or the limb there can lend. |
| Bigint.SubtractionCanFail | isaac/fmt/format-inl.h:557-567 | A minuend and subtrahend that meet the asserts and still need a borrow no limb there can lend. |
| Bigint.QuotientFits | isaac/fmt/format-inl.h:738-758 | During a division with a quotient below 2^31 every subtraction is one of the exact ones. |
| Bigint.BigInt.DivmodAssign | isaac/fmt/format-inl.h:738-758 | Dividend = quotient x divisor + remainder; the remainder is below the divisor if and only if not both the operands are equal and the divisor has more limbs. |
| Bigint.DivmodCanErr | isaac/fmt/format-inl.h:738-758 | An equal pair that divides to quotient nought and leaves the whole divisor as remainder. |
| Octets.PutGet | isaac/alg/ys_rol32.hpp:144-148 | Loading a big-endian word and storing it again gives the same four octets. |
| BlockCipher.RoundsBack | isaac/alg/ys_islam.hpp:363-380 | The 32-round network run with its keys in reverse order undoes itself, whatever the tables hold. |
| BlockCipher.EncryptBlock | isaac/alg/ys_islam.hpp:363-380 | Reading a block, 32 rounds in rotating registers and writing it in reverse word order computes the block function, also in place. |
| BlockCipher.Round | isaac/alg/ys_islam.hpp:177-189 | The round with its four table look-ups and rotations computes the step of the network. |
| Sm4Standard.RoundAdds | isaac/alg/ys_islam.hpp:177-189 | With a table that holds L of the substituted octet, a round adds L(tau(x)): tau puts each octet through the box in its own place, L adds the rotations by 2, 10, 18 and 24. |
| Sm4Standard.KeyAdds | isaac/alg/ys_islam.hpp:159-175 | The key schedule adds the rotations by 13 and 23 of the substituted word. |
| Sm4Standard.BlockIsStandard | isaac/alg/ys_sm4.hpp:348-400 | With such a table the block function is the recurrence of SM4 over 32 words, keys included, from octets to octets. |
| Sm4Tables.TableIs | isaac/alg/ys_sm4.hpp:186-307 | Every entry of the table is L of the entry of SM4's box, and none is L of the entry of YS_Islam's, for all 256 octets. |
| Sm4Tables.ConstantIs | isaac/alg/ys_sm4.hpp:225-237 | Octet j of constant i of the key schedule is 7 (4 i + j) mod 256. |
| Sm4Tables.Sm4IsStandard | isaac/alg/ys_sm4.hpp:348-400 | With its own tables YS_Sm4 enciphers every block under every key as SM4 does. |
| Sm4Tables.IslamIsMixed | isaac/alg/ys_islam.hpp:191-380 | YS_Islam enciphers as SM4 with two boxes: the rounds use SM4's, through the table, and its own serves in the key schedule only; no entry of the table is that of its own box. |
| BlockCipher.SetEncryptKey | isaac/alg/ys_islam.hpp:382-397 | The key schedule fills the 32 round keys in order. |
| BlockCipher.SetDecryptKey | isaac/alg/ys_islam.hpp:399-414 | The decryption schedule stores the same round keys in reverse order. |
| BlockCipher.EcbBlocks | isaac/alg/ys_islam.hpp:355-361 | Every block is enciphered for itself, in order, and nothing after them is touched, also when output and input are one buffer. |
| BlockCipher.EcbDecrypt | isaac/alg/ys_sm4.hpp:412-421 | A buffer of whole blocks is deciphered with the reversed keys; any other length writes nothing. |
| BlockCipher.EcbRoundTrip | isaac/alg/ys_sm4.hpp:401-421 | Decryption undoes encryption and encryption undoes decryption, for every key and any number of blocks. |
| IslamCipher.UnpadPadded | isaac/alg/ys_islam.hpp:457-489 | Removing the padding undoes adding it, for every length. |
| IslamCipher.PadShows | isaac/alg/ys_islam.hpp:457-489 | Padding told from its octets: whole blocks, one to sixteen octets more, each of which is their number; and nothing else is the padded form. |
| IslamCipher.EncryptOctets | isaac/alg/ys_islam.hpp:427-431 | Encryption in the output buffer gives the enciphered padded octets, up to the length where the 32-bit sum wraps to nought. |
| IslamCipher.DecryptOctets | isaac/alg/ys_islam.hpp:444-449 | Decryption gives the deciphered octets without padding; a length that is no whole number of blocks leaves the buffer as it was. |
| IslamCipher.OctetsRoundTrip | isaac/alg/ys_islam.hpp:427-449 | Decryption of the buffer undoes its encryption, for every content. |
| IslamCipher.Encrypt | isaac/alg/ys_islam.hpp:491-504 | A pin shorter than four octets is refused; otherwise the result is the mark and the letters for the enciphered padded pin and data. |
| IslamCipher.Decrypt | isaac/alg/ys_islam.hpp:506-537 | Every way to refuse a text, in order, and the data after the first four octets when the pin matches. |
| IslamCipher.OpenedSealed | isaac/alg/ys_islam.hpp:491-537 | A sealed text opens for exactly the first four octets of the sealing pin, and gives the data with the rest of that pin in front. |
| IslamCipher.PinRoundTrip | isaac/alg/ys_islam.hpp:491-537 | Sealing and opening with one pin gives the data back if and only if the pin has four octets. |
| IslamCipher.OpensOnly | isaac/alg/ys_islam.hpp:506-537 | Whatever opens is the mark and letters for enciphered blocks whose content, padding taken off, is the pin and the text. |
| IslamCipher.LongPinIsLost | isaac/alg/ys_islam.hpp:491-537 | A pin of five octets seals a text that it cannot open again. |
| Base64.Encode | isaac/alg/ys_base64.hpp:17-86 | The state machine writes the letters for the octets laid end to end in six-bit groups, and the padding. |
| Base64.SextetBits | isaac/alg/ys_base64.hpp:17-86 | The bits of the letters, in order, are the bits of the octets, in order, and noughts behind them. |
| Base64.UpperLetter | isaac/alg/ys_base64.hpp:17-30 | The values below 26 are written as the upper-case letters in order. |
| Base64.Decode | isaac/alg/ys_base64.hpp:88-160 | Any text is read as the source reads it: wrong length to nothing, a stray character to the null string, otherwise the whole octets before the first '='. |
| Base64.RoundTrip | isaac/alg/ys_base64.hpp:17-160 | Decoding an encoding gives back every octet string. |
| Base64.EncodedIff | isaac/alg/ys_base64.hpp:17-160 | A text is the encoding of x if and only if it is canonical and reads as x. |
| BlockHash.GapIsLeast | isaac/alg/ys_md5.hpp:280-296 | The number of padding zeros is the least that leaves eight octets of the last block. |
| BlockHash.PaddingTellsApart | isaac/alg/ys_md5.hpp:280-296 | No two messages have the same padded form, though the length is kept mod 2^64. |
| BlockHash.PaddedTellsLength | isaac/alg/ys_md5.hpp:280-296 | The last eight octets of the padded message denote its length in bits mod 2^64: lowest octet first for MD5, highest first for SM3. |
| BlockHash.PaddedHolds | isaac/alg/ys_md5.hpp:280-296 | Before them stand the message, one octet 0x80 and noughts. |
| BlockHash.LastBlocks | isaac/alg/ys_sm3.hpp:137-156 | What is held back at the end gets one more block or two, exactly as the padded message has. |
| Md5.CountedIsSum | isaac/alg/ys_md5.hpp:235-241 | The split counter with its carry counts bits exactly mod 2^64. |
| Md5.Context.Update | isaac/alg/ys_md5.hpp:231-278 | Feeding octets of any number keeps: whole blocks folded in, the rest held back, the bits counted. |
| Md5.Context.Final | isaac/alg/ys_md5.hpp:280-303 | The blocks compressed in all are exactly those of the padded message. |
| Md5.HashPieces | isaac/alg/ys_md5.hpp:231-310 | However a message is cut into updates, the digest is that of the whole padded message. |
| Sm3.WordsAre | isaac/alg/ys_sm3.hpp:153-154 | The two length words shifted out of the block counter are those of the bit length mod 2^64. |
| Sm3.Context.Update | isaac/alg/ys_sm3.hpp:101-135 | Feeding octets of any number keeps: whole blocks folded in and counted, the rest held back. |
| Sm3.Context.Final | isaac/alg/ys_sm3.hpp:137-161 | The blocks compressed in all are exactly those of the padded message. |
| Sm3.HashPieces | isaac/alg/ys_sm3.hpp:79-161 | However a message is cut into updates, the digest is that of the whole padded message. |

## Findings

Properties one would expect of the code and that are false of it; each has an input and the exact condition.

| what fails | input | exact condition |
|---|---|---|
| `compare` is not always the sign of the difference | `BigCompare.EqualButUnlike`: 2^32 as one limb at exponent 1 and as two limbs at exponent 0; `BigCompare.CompareCanErr` runs the comparison | `BigCompare.Compare`: wrong exactly on equal values with different limb counts |
| the remainder of `divmod_assign` can equal the divisor | `Bigint.DivmodCanErr`: the same two numbers | `Bigint.BigInt.DivmodAssign`: exactly when the operands are equal and the divisor has more limbs |
| `subtract_aligned` passes a borrow to one limb only | `Bigint.SubtractionCanFail`: limbs [0, 0, 1] less limbs [1] | `Bigint.BigInt.SubtractAligned`: right if and only if `Borrowable`; `Bigint.QuotientFits` shows that divisions with a quotient below 2^31 stay within it |
| the bitmask of `assign_pow10` leaves the range of an int | any exponent from 2^30 on | `Bigint.BitmaskFits`: stays within exactly for exponents below 2^30 |
| a pin longer than four octets seals a text it cannot open | `IslamCipher.LongPinIsLost` | `IslamCipher.PinRoundTrip`: the round trip holds if and only if the pin has four octets |
| a request with method M-SEARCH, printed, is refused | `HttpRequestLine.MSearchRefused`: the table's own text for the method | `HttpRequestLine.MethodRun`: every other method is recognised |
| the 32-bit count of header bytes can wrap within one piece | any name or value of 2^32 minus the count so far | `HttpExecute.CountIsSound`: right if and only if the sum stays below 2^32 |
| a context used again can start with a header left over | `HttpConsumer.ReuseIsFresh` with a header name held | `HttpConsumer.ReuseIsFresh`: fresh exactly when no header name is held; `clear` does not empty it |
| a list that ends in "chunked" is not always taken so | `HttpTransfer.NotSeenChunked`: `c,chunked`; `gzip,`, a tab and `chunked`; `chunked, chunked` | `HttpListValues.LookAt` with `HttpTransfer.LineRun`: an item is missed exactly behind an item that begins the word, or when the list is lost to a tab or an underscore; `HttpTransfer.OrdinaryLists` |
| trailers spoil the headers: the last header comes twice, the last trailer not at all | `HttpTrailers.TrailedRequest`: any trailers | `HttpTrailers.RightIfRepeated`: right if and only if the last trailer repeats the last header |
| a response given a wrong Content-Length is printed with it | `HttpResponseTrip.ResponseReturns` with a length other than the body's | `HttpResponseTrip.ResponseReturns`: comes back if and only if the length given, if any, is the body's |
| a response with a status above 999, printed, is refused | `HttpResponseTrip.LongStatusRefused` | `HttpResponses.StatusCodeRead`: read up to 999 |
| bytes above 127 pass for a nought in a chunk size | `HttpFraming.SizeBytes`: any such byte | `HttpFraming.SizeBytes`: right exactly for bytes up to 127 |
| YS_Islam's own box plays no part in its rounds | `Sm4Tables.IslamIsMixed`: any block | `Sm4Tables.IslamIsMixed`: its box serves in the key schedule only |
| chunk sizes and lengths near 2^64 are refused | sizes above 2^64 - 17, lengths above 2^64 - 7 | `HttpFraming.ChunkSizeRead`, `HttpHeaderLines.LengthRead` |

## Left out

- HttpExecute.Connection.AppendAll: pieces of at most 2^32 minus the header limit; `HttpExecute.CountIsSound` says what changes beyond.
- HttpExecute.Connection.Execute: callbacks that return a value other than nought (skip body, upgrade, error) are not modelled, because the consumer's callbacks return nought; its catch clause for a failed insertion is not modelled either.
- HttpRoundTrip.RoundTrip: asks for a method other than CONNECT and M-SEARCH, header names other than Upgrade and those that begin with Transfer-Encoding, Content-Length only as format writes it, values without line ends or leading blanks, and a head within the parser's size limit; what the parser makes of codings and upgrades is in `HttpTransfer` and `HttpCorners`.
- HttpTransfer.ChunkedRequest: chunks without extensions and lists without empty items; extensions are in `HttpCorners.ExtensionIgnored`, a list with empty items is not modelled as a list.
- HttpResponseTrip.HttpResponse.Format: the table of reason phrases is a parameter, any text on one line.
- HttpCorners.UpgradedRequest: requests without a transfer coding; a chunked body before another protocol is not modelled.
- HttpConsumer.EveryAssertHolds: the asserts are those the byte loop evaluates before a byte; those that compare macro constants are not modelled.
- PortRuns.NoLostInterest: the port, its sockets and its groups are values that each locked operation maps to the next; updating them in place, and aliasing between them, is shown only for the tree and the queue.
- PortRuns.OneShotOnce: follows the socket's state; a handle deleted and added again has a new state, which is not silenced.
- PortRuns.GroupsNeeded: an attempt to add a socket takes its place in a group before it can fail, so the place being taken counts as held.
- PortRuns.DeletePort: on values; the order in which the tree and the queue are emptied is kept, the heap is not modelled there.
- Queue.Queue.Append: the class is tied to the sequences of the port by `PollGroups.WithoutAt` and by its own contracts; ports do not hold Queue objects.
- Reflock.EveryAssertHolds: fewer than 2^28 threads, since the reference field is 28 bits wide; lock acquisition is one atomic step, and fairness is not modelled.
- QrPlacement.QrCode.Finish: the penalty score is a parameter, and the grid of reserved cells is kept after the constructor so that reading back can be stated.
- QrSymbol.EncodeText: capacities, block counts and the drawing of function patterns are parameters that must leave room for the codewords.
- Bigint.BigInt.AssignPow10: exponents below 2^30; see `Bigint.BitmaskFits`.
- Bigint.BigInt.DivmodAssign: quotients that fit an int, as its result type demands.
- BigCompare.AddCompare: operands with a top limb other than nought, as every operation but subtraction to nought leaves them.
- IslamCipher.Encrypt: padded lengths below 2^32, past which the base64 loop index of 32 bits never ends.
- Base64.Encode: inputs below 2^32 octets, for the same reason.
- Md5.Context.Final: one message an object; the counters and the digest are not reset for a second. The digest is returned as the compression state, not stored as octets.
- Sm3.Context.Final: likewise.
- The buffer bookkeeping of httpParse (`_pos`, leftover capacity), because it rests on a buffer class outside the core; parserAppend is modelled.
- http_parser_parse_url; the authority after CONNECT; protocols after they leave the parser; responses to HEAD, which this consumer cannot announce.
- Hash constants and the compression functions; vector instructions; the 64-bit overload of multiply. MD5 stores its length as a little-endian machine does.
- Extended channel interpretation segments, version tables, penalty scores and rendering of QR codes.
- Error-code tables, completion ports, critical sections and sockets of the operating system: atomic steps and a free environment stand for them.
- Timeouts of epoll_wait: whether time is left is a parameter.
