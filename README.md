# blospray, modelled in Dafny

blospray renders Blender scenes with Intel OSPRay on a separate render
server. A Blender add-on exports the scene over a TCP connection. The
server loads meshes and volumes, often through plugins. It renders the
scene progressively and sends each framebuffer back.

Every message on the wire is a serialised protobuf message. It is preceded
by its byte length as an unsigned 32-bit little-endian word. Raw arrays and
images follow a message with no length prefix of their own. Three protocol
generations exist, and they do not interoperate. Each pair is modelled
separately:

- **Byte-tag generation.** The Blender 2.8 add-on `blospray.2.8.py`
  (module `Blospray28`) talks to the earliest server,
  `ospray_render_server.cpp` (module `OldServer`). The scene follows its
  settings as `M` and `V` records and ends with `!`. The server renders a
  fixed number of samples and sends each framebuffer as a length-prefixed
  EXR file.
- **Scene-element generation.** The add-on's `render_ospray/connection.py`
  (module `Connection`) talks to the server `core/ospray_render_server.cpp`
  (module `CoreServer`). The scene is a stream of `SceneElement` messages
  that ends with an element of type `NONE`. A render thread hands `FRAME`,
  `CANCELED` and `DONE` results to the connection loop through a queue.
- **Protocol version 2.** The scene server `server/main.cpp` (modules
  `Server` and `RenderServer`) starts with a `HELLO` handshake. It keeps a
  registry of named scene data: plugin instances and Blender meshes. It
  loads plugins (module `Plugin2`, for `core/plugin2.h`) and checks their
  parameters. It renders first at reduced resolution and then sample by
  sample.

The shared layers are:

- the kernel side of a TCP connection and the C++ socket wrapper
  (`TcpSocket`, for `tcpsocket.h`);
- the message framing (`Framing`, `Bytes`, `Text`);
- the servers' receive path (`ServerIO`);
- the add-on's socket helpers (`PyCommon`, for `render_ospray/common.py`).

The helpers `matrix2list`, `customproperties2dict`, `send_protobuf` and
`receive_protobuf` appear three times. They are in `render_ospray/engine.py`
at lines 39-88, in `render_ospray/connection.py` and in
`render_ospray/common.py`. The three copies have the same text. Each helper
is modelled once, by the member that cites `connection.py` or `common.py`.

Binary layouts and plugins:

- the bounding mesh that stands for a plugin's geometry, with its flat
  buffer (`BoundingMesh`);
- `writePPM` (`Image`) and `float_swap` (`Util`);
- `affine3f_from_matrix` (`Affine`);
- the raw-volume, HDF5, PLY and VTK-streamlines plugins (`VolumeRaw`,
  `Hdf5`, `Ply`, `Streamlines`).

Developer tools:

- the OSPRay call tracer `faker/faker.cpp` (`Faker`);
- its trace analyser `faker/parse.py` (`FakerParse`);
- the HYG catalogue converter `scripts/hygcsv2json.py` (`HygCsv`);
- the logging of the viewport tracing engine `scripts/re_trace_viewport.py`
  (`TraceViewport`).

Modelling choices that apply throughout:

- A float is never computed on. It travels as the 32 bits of its IEEE-754
  single-precision pattern (`Bytes.F32`).
- Sockets are objects (`TcpSocket.Socket`) over two kernel values. An
  `Inbox` holds the bytes the peer sent plus the outcome of each coming
  `recv`: it may fail, or hand out fewer bytes than asked. An `Outbox` holds
  the bytes accepted plus the outcome of each coming `send`.
- A `recv` that hands out nothing means the peer has closed.
- The Python receive loops never test for an empty chunk. On a closed
  connection they would spin forever. The model stops there with the
  outcome `Stalled`. The scene loops of the two OSPRay servers do not check
  their element receives either: on a closed connection they handle the
  element they hold again and again, and the model stops there with
  `Stalled` as well.
- A JSON value converted to a float or a boolean, or indexed, raises as
  nlohmann::json does: a float takes a number or a boolean, a boolean only
  a boolean, and an index works only on an array entry that exists.
- OSPRay, `dlopen`, protobuf decoding, JSON parsing, plugin code and SHA-1
  are parameters or opaque values.

Wherever a state-changing method is tied to a specification function of
the old state, the lemmas about that function carry the protocol's
guarantees. These include round trips of every framing and layout, exact
byte counts, reference-count cascades, and the invariants of the registries
and render state machines.

## Model

| member | source | states |
|---|---|---|
| Affine.FromRowMajor | core/ospray_render_server.cpp:95-102 | the transform built from a matrix the add-on flattened row by row has columns m[0,4,8], m[1,5,9], m[2,6,10] as its linear part and m[3,7,11] as its translation |
| Affine.FromMatrixUsesUpperRows | ospray_render_server.cpp:144-151 | two matrices give the same transform if and only if their first twelve entries agree: the bottom row is ignored, nothing else is |
| Util.Htonl | core/util.h:16 | on a little-endian host `htonl` reverses the four bytes of the word; on a big-endian host it is the identity |
| Util.FloatSwapInvolution | core/util.h:6-18 | `float_swap` applied twice gives back the original bit pattern on either host |
| Image.Ascii | core/image.cpp:71 | each printed digit goes out as one byte |
| Image.AsciiDigits | core/image.cpp:71 | each printed digit goes out as an ASCII digit byte |
| Image.Decimal | core/image.cpp:71 | the width and height are printed as at least one character |
| Image.DecimalDigits | core/image.cpp:71 | the width and height are printed as ASCII digits only |
| Image.DecimalValueOfAscii | core/image.cpp:71 | digits read back as bytes have the value they have as text |
| Image.DecimalValueOfDecimal | core/image.cpp:71 | the printed digits read back as the number printed |
| Image.PpmHeader | core/image.cpp:71 | the header starts `P6\n` and ends `\n255\n` |
| Image.DropAlpha | core/image.cpp:75-79 | a row of `n` RGBA pixels becomes `3n` bytes |
| Image.DropAlphaAt | core/image.cpp:75-79 | byte `3x+c` of the output row is byte `4x+c` of the input row, for `c < 3`: alpha is dropped |
| Image.Rows | core/image.cpp:73-81 | the first `n` output rows hold `3wn` bytes |
| Image.Ppm | core/image.cpp:68-84 | the file is the header, `3wh` pixel bytes and a final newline |
| Image.PpmPixel | core/image.cpp:73-79 | byte `c` of pixel `x` of file row `y` is byte `c` of input pixel `x` of row `h-1-y`: a vertical flip with alpha dropped |
| Image.PpmRowByte | core/image.cpp:73-80 | every byte of file row `y` comes from input row `h-1-y` with alpha dropped |
| Image.WritePPM | core/image.cpp:68-84 | the row loop writes exactly the file `Ppm` describes |
| Image.CopyRGB | core/image.cpp:75-79 | the pixel loop fills the `3w`-byte row buffer with the RGB bytes of the row, in order |
| Bytes.LE32 | render_ospray/common.py:13 | `pack('<I', n)` gives four bytes that decode back to `n` |
| Bytes.LE32OfReadLE32 | render_ospray/common.py:20-21 | any four bytes are the encoding of the word `unpack('<I', d)` reads from them |
| Bytes.WordsLE | core/bounding_mesh.cpp:102-124 | a run of 32-bit words takes four bytes per word |
| Bytes.ReadWordsOfWords | core/bounding_mesh.cpp:129-194 | reading `n` words back from the encoding of `n` words, whatever follows, gives the same words |
| Bytes.WordsLEAt | core/bounding_mesh.cpp:102-124 | word `i` of an encoded run sits at bytes `4i..4i+4` |
| Framing.Frame | render_ospray/common.py:10-17 | a framed message is a 4-byte prefix followed by the message bytes, four bytes longer than the message |
| Framing.ParseFrame | render_ospray/common.py:19-35 | a frame can be split from a stream exactly when the stream holds the 4-byte prefix and as many bytes as it announces |
| Framing.ParseFrameOfFrame | ospray_render_server.cpp:121-142 | splitting a framed message off a stream gives back the message and the untouched rest |
| Framing.FrameOfParseFrame | ospray_render_server.cpp:121-142 | a stream a frame can be split from is that frame followed by the rest |
| Text.NatToString | faker/faker.cpp:258 | `std::to_string` of a non-negative number is a non-empty run of digits without a leading zero |
| Text.ParseNatToString | faker/faker.cpp:258 | the digits read back as the number written |
| Text.NatToStringInjective | faker/faker.cpp:258 | different numbers are written differently |
| Faker.LabelNumbers | faker/faker.cpp:251-255 | `n` objects of one type created in a row get `n` label numbers |
| Faker.LabelNumbersFrom | faker/faker.cpp:251-255 | once a type has a counter `c`, the next objects get `c`, `c+1`, and so on |
| Faker.LabelNumbersOfNewType | faker/faker.cpp:251-258 | because of the post-increment, the first two objects of a type are both `#1` and the `k`-th after them is `#k`; the labels are distinct from the second object on |
| Faker.Label | faker/faker.cpp:258 | a label is the type name, `#`, and the decimal digits of the number |
| Faker.Components | faker/faker.cpp:326-330 | float item types have 1 to 4 components (`type - OSP_FLOAT + 1`), every other type none |
| Faker.Shown | faker/faker.cpp:320-322 | with `dump_arrays` 1 at most 30 items are shown, and all of them when there are no more than 30; otherwise all items are shown |
| Faker.ItemFloats | faker/faker.cpp:333-341 | item `i` of a float array is the `v` values from `v*i` on |
| Faker.Tracer.constructor | faker/faker.cpp:226-259 | the four maps start empty |
| Faker.Tracer.FindOrLoadCall | faker/faker.cpp:226-240 | a name looked up before returns the cached pointer without `dlsym`; a new name is resolved once and cached |
| Faker.Tracer.ObjInfo | faker/faker.cpp:261-271 | `???` for an unknown address, otherwise the label, `:` and the decimal reference count |
| Faker.Tracer.NewObj | faker/faker.cpp:246-259 | the object gets count 1 and the next label of its type, the counter being read before it is incremented |
| Faker.Tracer.OspNew | faker/faker.cpp:273-291 | `ospNew<type>` warns about a lost count when the address already had one, then does `newobj` |
| Faker.Tracer.AddCount | faker/faker.cpp:395 | `reference_counts[p] += 1`, starting from zero for an address without a count |
| Faker.Tracer.OspNewLinked | faker/faker.cpp:383-475 | `ospNewGeometricModel`, `ospNewInstance` and `ospNewVolumetricModel` do `newobj` and add one count to the object passed in |
| Faker.Tracer.OspSetReference | faker/faker.cpp:541-554 | `ospSetData` and `ospSetObject` add one count to the object set and change no other count |
| Faker.Tracer.OspRelease | faker/faker.cpp:512-530 | `ospRelease` never changes a count; it warns for an address without one |
| Faker.Tracer.RowValues | faker/faker.cpp:337-341 | the floats logged for item `i` are the `v` values from `v*i` on |
| Faker.Tracer.DumpArray | faker/faker.cpp:313-358 | one line per shown item of a float or object array, then an ellipsis line when `dump_arrays` is 1 and items were held back; nothing when `dump_arrays` is not positive |
| TcpSocket.Granted | tcpsocket.h:240-257 | one `recv` returns -1 or at most the count asked for and the bytes available; 0 once the peer has closed |
| TcpSocket.AfterRecv | tcpsocket.h:240-257 | a `recv` consumes exactly the bytes it returned; a zero-byte `recv` leaves the connection closed; no `recv` adds to what is left to happen on the connection (unread bytes, decided outcomes, the close to come), and one that asks for bytes on an open connection takes from it |
| TcpSocket.Accepted | tcpsocket.h:194-206 | one `send` returns -1 or at most the count asked for |
| TcpSocket.AfterSend | tcpsocket.h:194-206 | a `send` appends exactly the accepted prefix of the buffer |
| TcpSocket.Socket.constructor | tcpsocket.h:49-52 | a socket over the given kernel state |
| TcpSocket.Socket.Recv | tcpsocket.h:240-257 | a single `recv` writes the bytes it returns at the offset and nothing else; -1 leaves the buffer as it was |
| TcpSocket.Socket.Send | tcpsocket.h:194-206 | a single `send` propagates -1 or appends the accepted prefix |
| TcpSocket.Socket.SendAll | tcpsocket.h:208-237 | `sendall` returns `len` after sending every byte in order; a send returning -1 or 0 ends it with -1 after a proper prefix; an empty buffer returns 0 without sending |
| TcpSocket.Socket.RecvAll | tcpsocket.h:260-285 | `recvall` fills the buffer with the next `buflen` bytes and returns `buflen`; any `recv` of 0 or -1 ends it with -1; `buflen` 0 returns 0 without a call; on a closed connection nothing changes, on an open one a non-empty `recvall` uses it up further |
| TcpSocket.Socket.IsReadable | tcpsocket.h:288-309 | the zero-timeout poll is true exactly when data is waiting or the peer has closed |
| ServerIO.ReceiveArray | core/ospray_render_server.cpp:136-158 | one `recvall` of a size the server computed: on success the next `n` bytes of the stream, consumed; fails when fewer were sent; always succeeds on a healthy connection that sent enough |
| ServerIO.ReceiveProtobuf | ospray_render_server.cpp:121-142 | `receive_protobuf` reads the 4-byte size and then exactly that many bytes, returning the first frame's payload; it fails when either `recvall` fails, and succeeds on a healthy connection holding a whole frame |
| PyCommon.ReadLoopExact | render_ospray/common.py:19-35 | a receive loop that never asks for more than it still owes yields exactly the owed bytes, from the front of the stream, and leaves the rest |
| PyCommon.ReadLoopCompletes | render_ospray/common.py:25-28 | with an open connection whose recvs never fail and a peer that sent enough, such a loop always completes |
| PyCommon.ReadLoopStaysOpen | render_ospray/common.py:25-28 | a completed loop on an open, unlimited connection leaves it open and unlimited |
| PyCommon.ReadLoopOverread | render_ospray/common.py:37-46 | `receive_buffer` as written returns at least `n` bytes, a prefix of the stream, possibly more than `n` |
| PyCommon.ReceiveBufferOverreadExample | render_ospray/common.py:42 | against a peer that sent 20 bytes whose first recv hands out 6, `receive_buffer(sock, 10)` returns 16 bytes |
| PyCommon.TurnEnds | render_ospray/common.py:26-28 | a recv that raises ends the loop raising; a recv that returns nothing leaves `left` unchanged for good, so the loop stalls |
| PyCommon.PyRecv | render_ospray/common.py:26 | Python's `recv` raises where the call fails and otherwise returns the next chunk |
| PyCommon.ReceiveChunks | render_ospray/common.py:23-30 | the chunk loop yields exactly what the receive-loop specification gives; a stall means the peer closed |
| PyCommon.ReceiveProtobuf | render_ospray/common.py:19-35 | on success the payload is the first frame of the stream and the stream advances past it; a stall means the peer closed; a healthy connection holding a whole frame always yields it |
| PyCommon.PySend | render_ospray/common.py:13 | Python's `send` raises where the call fails and otherwise appends the accepted prefix |
| PyCommon.SendProtobuf | render_ospray/common.py:10-17 | `send_protobuf` writes the 4-byte little-endian length then the payload; it raises for a payload of 2^32 bytes or more; without `sendall` a short send of the payload loses its tail |
| PyCommon.ReceiveBuffer | render_ospray/common.py:37-46 | `receive_buffer` as written: the loop asking `min(n,4096)` each time, which returns at least `n` bytes |
| PyCommon.ReceiveBufferExact | render_ospray/common.py:37-46 | with each request `min(left,4096)` the loop returns exactly the next `n` bytes and always completes on a healthy connection |
| PyCommon.ReceiveIntoArray | render_ospray/common.py:49-56 | `recv_into` through an advancing view fills the first `n` bytes of the buffer with the next `n` bytes of the stream and leaves the rest of the buffer alone |
| Connection.Matrix2ListRowMajor | render_ospray/connection.py:32-37 | `matrix2list` is row-major: entry `4i+j` is row `i`, column `j`, and a 4x4 matrix gives 16 values |
| Connection.CustomProperties2Dict | render_ospray/connection.py:39-57 | the result holds exactly the keys not starting with `_`, each value made plain, and `file` made an absolute path; an empty key makes `k[0]` raise |
| Connection.Flat3At | render_ospray/connection.py:366-373 | entry `3*idx+c` of a filled array is component `c` of item `idx` |
| Connection.FillTriples | render_ospray/connection.py:366-373 | the `enumerate` loop fills the vertex array with the items' components in order |
| Connection.FindSmooth | render_ospray/connection.py:345-350 | the scan sets `use_smooth` exactly when some loop triangle is smooth-shaded |
| Connection.Paint | render_ospray/connection.py:397-405 | one loop's write keeps the length of the colour array |
| Connection.Painted | render_ospray/connection.py:395-405 | the loops' writes keep the length of the colour array |
| Connection.PaintedAt | render_ospray/connection.py:395-405 | a vertex some loop touches holds the last such loop's colour with alpha 1.0; any other vertex keeps what `numpy.empty` left |
| Connection.FillColors | render_ospray/connection.py:395-405 | the polygon and loop loops fill the colour array exactly as `Painted` describes |
| Connection.VertexArray | render_ospray/connection.py:366-376 | the vertex array is 3 floats per vertex |
| Connection.NormalArrays | render_ospray/connection.py:378-389 | the normals, 3 floats per vertex, are sent only when some triangle is smooth |
| Connection.ColorArrays | render_ospray/connection.py:393-408 | the colours, 4 floats per vertex, are sent only when the mesh has vertex colours |
| Connection.TriangleArray | render_ospray/connection.py:410-419 | the triangle array is 3 u32 per triangle |
| Connection.FillArrays | render_ospray/connection.py:366-419 | `export_mesh` sends the vertex, normal, colour and triangle arrays in that order |
| Connection.MeshLayout | render_ospray/connection.py:319-421 | an exported mesh is its `MESH_DATA` element, a `MeshData` with `NORMALS` set iff some triangle is smooth and `VERTEX_COLORS` iff it has colours, then arrays of 12nv, 12nv if smooth, 16nv if coloured, and 12nt bytes |
| Connection.InstancesSnoc | render_ospray/connection.py:607-651 | one more depsgraph instance adds its own writes after those of the instances before it |
| Connection.WellLinkedAppend | render_ospray/connection.py:607-651 | a write sequence is well linked exactly when both halves are, the second from what the first made known |
| Connection.MeshWritesLinked | render_ospray/connection.py:319-421 | a mesh not yet known brings exactly that mesh to a reader |
| Connection.InstancesLinked | render_ospray/connection.py:607-651 | within one export each mesh's data goes out once, before any object linking to it, and `exported_meshes` is exactly the set of meshes sent |
| Connection.InstancesNoEnd | render_ospray/connection.py:607-651 | no instance write is a `NONE` element |
| Connection.SceneShape | render_ospray/connection.py:424-657 | `export_scene` sends `UPDATE_SCENE`, the image, render, camera and light settings, and one `NONE` element as its very last write |
| Connection.SceneLinked | render_ospray/connection.py:97-112 | a scene exported after `update` empties `exported_meshes` is well linked from the start |
| Connection.RenderLoop | render_ospray/connection.py:154-233 | the poll loop ends at the first `DONE` or `CANCELED`, reports progress k/render_samples after the k-th `FRAME`, and sends `CANCEL_RENDERING` exactly when a break was requested before the end |
| Connection.Client.constructor | render_ospray/connection.py:86-111 | a client starts with nothing sent and no meshes exported |
| Connection.Client.ExportMesh | render_ospray/connection.py:319-421 | `export_mesh` writes the mesh's element, header and arrays and adds its name to `exported_meshes` |
| Connection.Client.ExportInstance | render_ospray/connection.py:607-651 | one instance writes its mesh's data only if the name is not yet in `exported_meshes`, then its `MESH_OBJECT` |
| Connection.Client.ExportInstances | render_ospray/connection.py:607-651 | the loop over the depsgraph instances writes what `InstancesWrites` describes |
| Connection.Client.ExportScene | render_ospray/connection.py:424-657 | `export_scene` writes what `SceneWrites` describes |
| Connection.Client.Update | render_ospray/connection.py:97-112 | `update` resets `exported_meshes` and exports a well-linked scene |
| Connection.Client.Render | render_ospray/connection.py:114-241 | `render` sends `START_RENDERING`, at most one `CANCEL_RENDERING`, and `QUIT` after the loop ends |
| Connection.ReadFramebufferToFile | render_ospray/connection.py:680-690 | the file receives exactly the next `size` bytes; a stall means the peer closed; a healthy connection always completes |
| BoundingMesh.SerializedSize | core/bounding_mesh.cpp:86-93 | the size is 16 plus 4 bytes per vertex float and per index of the four index arrays: a multiple of 4, at least 16 (unwrapped; the 32-bit wrap is under Left out) |
| BoundingMesh.Layout | core/bounding_mesh.cpp:100-124 | the buffer holds as many words as the reported size allows |
| BoundingMesh.SerializedBytes | core/bounding_mesh.cpp:95-126 | the buffer is exactly the reported size |
| BoundingMesh.ReadMesh | core/bounding_mesh.cpp:129-194 | a reader takes the vertex, edge and face counts from words 0-2 and the loop-start count, also used for `loop_total`, from word 3 |
| BoundingMesh.DeserializeOfLayout | core/bounding_mesh.cpp:83-194 | reading back a serialised mesh, with the cursor moved past the vertices, reproduces all five arrays when `loop_total` is as long as `loop_start` |
| BoundingMesh.LayoutParts | core/bounding_mesh.cpp:100-124 | the buffer is the four counts, the vertex bits, then edges, faces, loop starts and loop totals |
| BoundingMesh.ReadMeshParts | core/bounding_mesh.cpp:129-194 | a reader whose runs lie where the counts say builds the mesh of those runs |
| BoundingMesh.DeserializeAsWrittenMisreadsEdges | core/bounding_mesh.cpp:141-164 | with one vertex, `deserialize` as written reads that vertex's bits as the first edge and does not give back the mesh |
| BoundingMesh.Serialize | core/bounding_mesh.cpp:83-127 | `serialize` reports `SerializedSize` and fills a fresh buffer with exactly `Layout` (for meshes whose size fits 32 bits; see Left out) |
| BoundingMesh.WriteRun | core/bounding_mesh.cpp:109-124 | a `*i++ = v` loop writes the run at the cursor, advances it by the run's length and changes nothing else |
| BoundingMesh.ReadRun | core/bounding_mesh.cpp:141-190 | a read loop takes the `n` words at the cursor |
| BoundingMesh.DeserializeBuffer | core/bounding_mesh.cpp:129-194 | `deserialize` as written builds what `DeserializeAsWritten` describes and never reads `size` |
| BoundingMesh.BoxCorners | core/bounding_mesh.cpp:11-18 | the eight corners are 24 floats |
| BoundingMesh.BboxEdges | core/bounding_mesh.cpp:3-37 | `bbox_edges` yields 8 vertices and 12 edges (24 indices, all below 8) and no faces |
| BoundingMesh.BboxMesh | core/bounding_mesh.cpp:39-73 | `bbox_mesh` yields 8 vertices and 6 quads: 24 face indices below 8, `loop_start[i] = 4i`, `loop_total[i] = 4` |
| Plugin2.PluginResult.constructor | core/plugin2.h:25-29 | a result starts with success and an empty message |
| Plugin2.PluginResult.SetSuccess | core/plugin2.h:33-36 | sets the success flag only |
| Plugin2.PluginResult.SetMessage | core/plugin2.h:38-41 | sets the message only |
| Plugin2.TypePrefix | core/plugin2.h:159-170 | every plugin type but `PT_UNKNOWN` has a library prefix |
| Plugin2.PluginDefinition.constructor | core/plugin2.h:126-132 | type `PT_UNKNOWN`, empty names, no parameters, `uses_renderer_type` true |
| Plugin2.PluginDefinition.AddParameter | core/plugin2.h:134-150 | appends exactly one definition at the end, with no de-duplication, and changes nothing else |
| Plugin2.PluginDefinition.SetTypeAndName | core/plugin2.h:153-171 | sets the type and name; `so_name` becomes `geometry_`, `volume_` or `scene_` + name + `.so`, and is unchanged for `PT_UNKNOWN` |
| Plugin2.Plugin.constructor | core/plugin2.h:246-251 | no name, a null bound and no definition |
| Plugin2.Plugin.Configure | core/plugin2.h:259-264 | sets the definition and the name, nothing else |
| Plugin2.Plugin.Update | core/plugin2.h:266-270 | the default `update` returns false |
| Plugin2.Plugin.SetBound | core/plugin2.h:215-220 | frees the previous bound, if any, before taking the new one |
| Plugin2.ScenePlugin.constructor | core/plugin2.h:365-367 | no instances and no lights |
| Plugin2.ScenePlugin.AddInstance | core/plugin2.h:378-382 | appends the group and transform at the end; the lights are unchanged |
| Plugin2.ScenePlugin.AddLight | core/plugin2.h:385-389 | appends the light at the end; the instances are unchanged |
| Streamlines.Segments | plugins/geometry_vtk_streamlines.cpp:70-84 | only cells of type `VTK_LINE` with exactly two points are kept, in order |
| Streamlines.EndPoints | plugins/geometry_vtk_streamlines.cpp:92-98 | a kept cell contributes six coordinates |
| Streamlines.StartIndices | plugins/geometry_vtk_streamlines.cpp:100-102 | one start index per kept segment |
| Streamlines.CurIndexValue | plugins/geometry_vtk_streamlines.cpp:68-102 | the `uint32_t` `curindex` after `n` kept segments is `2n` modulo 2^32 |
| Streamlines.LoadSegments | plugins/geometry_vtk_streamlines.cpp:66-103 | the cell loop builds exactly the positions of the kept cells' end points and the start indices of the kept segments |
| Streamlines.LoadSkip | plugins/geometry_vtk_streamlines.cpp:74-84 | a cell that is not a two-point line leaves the lists and the counter as they were |
| Streamlines.LoadKeep | plugins/geometry_vtk_streamlines.cpp:86-102 | a two-point line appends both end points and the current index, and advances the index by two |
| Streamlines.PositionsLength | plugins/geometry_vtk_streamlines.cpp:66-103 | `|positions| == 6 * |indices|` |
| Streamlines.StartIndexAt | plugins/geometry_vtk_streamlines.cpp:100-102 | `indices[k]` is `2k`, wrapped to 32 bits |
| Streamlines.PositionsAt | plugins/geometry_vtk_streamlines.cpp:86-98 | coordinates `6k..6k+6` are the two end points of the `k`-th kept cell, first point first |
| Streamlines.SkippedCell | plugins/geometry_vtk_streamlines.cpp:74-84 | a cell that is not a two-point line adds nothing to either list |
| Streamlines.Radius | plugins/geometry_vtk_streamlines.cpp:121-125 | the radius is the `radius` parameter when present, else 1.0 |
| Hdf5.SwapXZ | plugins/volume_hdf5.cpp:65-67 | the first and third extents are exchanged and the rest kept |
| Hdf5.SlabVoxels | plugins/volume_hdf5.cpp:128-134 | a voxel of the grid is in the slab if and only if its plane `k` lies in `[min_index, max_index]` |
| Hdf5.FillRow | plugins/volume_hdf5.cpp:132-135 | the innermost loop sets the `d0` voxels of row `j` of plane `k` and no other |
| Hdf5.FillPlane | plugins/volume_hdf5.cpp:130-136 | the middle loop sets every voxel of plane `k` and no other |
| Hdf5.FillSlab | plugins/volume_hdf5.cpp:128-137 | the outer loop sets exactly the voxels at `(k*d1+j)*d0+i` with `k` in `[min_index, max_index]` |
| Hdf5.Fill | plugins/volume_hdf5.cpp:111-140 | `fill` along axis 2 overwrites exactly the slab; any other axis leaves the grid unchanged |
| Hdf5.DataRange | plugins/volume_hdf5.cpp:168-178 | the data range is `value_range` when given, else the computed minimum and maximum |
| Hdf5.Generate | plugins/volume_hdf5.cpp:28-178 | a missing `hdf5_file` or `dataset` fails first, then a rank other than 3 (checked after the swap), then a non-float type, each with its message; on success the dimensions are swapped, the grid holds `n` values with the fill applied, and the data range is chosen as above |
| Ply.Accumulator.constructor | plugins/geometry_ply.cpp:261-262 | a fresh array of the given size and a next index of 0 |
| Ply.Accumulator.Put | plugins/geometry_ply.cpp:57-91 | `vertex_cb` and its siblings store the value at the next index and advance it by exactly one, leaving later entries alone |
| Ply.InitialFaceCapacity | plugins/geometry_ply.cpp:272 | the face index buffer starts at `nfaces*4` when `nfaces > 128`, else 512 |
| Ply.Grown | plugins/geometry_ply.cpp:116 | a full buffer grows to a larger size |
| Ply.FaceAccumulator.constructor | plugins/geometry_ply.cpp:269-276 | `load_ply_file` allocates the face buffer at its initial capacity and `nfaces` loop starts and totals, all empty |
| Ply.FaceAccumulator.FaceCb | plugins/geometry_ply.cpp:95-129 | value index -1 records the loop start at the current element count and the loop length and writes no index; any other value appends one vertex index, growing the buffer first when it is full |
| Ply.ColorScale | plugins/geometry_ply.cpp:219-224 | the colour scale is 1/255 for `PLY_UCHAR` and 1 for `PLY_FLOAT`; any other type warns and keeps the previous scale |
| Ply.FirstTexcoord | plugins/geometry_ply.cpp:239-254 | the first property named `s` or `u`, if any |
| Ply.TexcoordsFromFirst | plugins/geometry_ply.cpp:239-254 | only the first `s` or `u` property opens the texture-coordinate pair |
| Ply.ColorsFromRed | plugins/geometry_ply.cpp:213-229 | colours are on exactly when some property is named `red` |
| VolumeRaw.VoxelSize | plugins/volume_raw.cpp:233-259 | `uchar` is 1 byte per point, `ushort` 2, `float` 4; any other type fails |
| VolumeRaw.ReadSize | plugins/volume_raw.cpp:233-262 | `load` reads the voxel size times the number of grid points, or fails for an unknown type |
| VolumeRaw.SwapAll | plugins/volume_raw.cpp:273-274 | every value goes through `float_swap` |
| VolumeRaw.SwapAllTwice | plugins/volume_raw.cpp:268-280 | flipping a float grid twice gives back the values read |
| VolumeRaw.EndianFlip | plugins/volume_raw.cpp:268-280 | the flip is applied in place only to `float` voxels when `endian_flip` is set; other types warn and keep the values |
| VolumeRaw.PointIndexBound | plugins/volume_raw.cpp:77 | a grid point's number is below `num_grid_points = d0*d1*d2` |
| VolumeRaw.HexCell | plugins/volume_raw.cpp:127-138 | each cell writes eight indices |
| VolumeRaw.HexCellCorners | plugins/volume_raw.cpp:116-141 | cell `(i,j,k)` with `base = k*d0*d1 + j*d0 + i` has indices `[base, base+1, base+d0+1, base+d0]` and the same four plus `d0*d1`, the VTK_HEXAHEDRON order, all below `num_grid_points` |
| VolumeRaw.HexRow | plugins/volume_raw.cpp:123-141 | a row of `n` cells writes `8n` indices |
| VolumeRaw.HexPlaneLength | plugins/volume_raw.cpp:121-142 | a plane of rows writes `8(d0-1)` indices per row |
| VolumeRaw.HexVolumeLength | plugins/volume_raw.cpp:119-143 | `n` planes write `8(d0-1)(d1-1)n` indices |
| VolumeRaw.HexVolumeInGrid | plugins/volume_raw.cpp:113-143 | every generated index names a grid point |
| VolumeRaw.HexTotal | plugins/volume_raw.cpp:78 | exactly `8 * num_hexahedrons` indices are written, `num_hexahedrons = (d0-1)(d1-1)(d2-1)` |
| VolumeRaw.HexIndices | plugins/volume_raw.cpp:113-143 | the hexahedron loop fills an array of `8 * num_hexahedrons` indices with the cells in `k`, `j`, `i` order |
| VolumeRaw.WriteHexPlane | plugins/volume_raw.cpp:121-142 | the middle loop appends the cells of plane `k` after those already written |
| VolumeRaw.WriteHexRow | plugins/volume_raw.cpp:123-141 | the innermost loop appends the cells of row `j` of plane `k` |
| VolumeRaw.WriteAt | plugins/volume_raw.cpp:129-140 | writing through the `hex` pointer puts the run at the cursor and advances it by its length |
| VolumeRaw.Coords | plugins/volume_raw.cpp:100-104 | each point stores the three components of its transform |
| VolumeRaw.VertexRow | plugins/volume_raw.cpp:96-107 | a row of `n` points writes `3n` values |
| VolumeRaw.VertexPlaneLength | plugins/volume_raw.cpp:92-108 | a plane of `m` rows writes `3*d0*m` values |
| VolumeRaw.GridVerticesLength | plugins/volume_raw.cpp:88-109 | `n` planes write `3*d0*d1*n` values |
| VolumeRaw.VertexOfPoint | plugins/volume_raw.cpp:87-109 | value `3*PointIndex(i,j,k)+c` is component `c` of the transformed point `(i,j,k)`: vertices follow the point numbering of the cells |
| VolumeRaw.VertexTotal | plugins/volume_raw.cpp:77-82 | the grid has `3 * num_grid_points` vertex values |
| VolumeRaw.Vertices | plugins/volume_raw.cpp:82-109 | the vertex loop fills the array with the points in `k`, `j`, `i` order, three values each |
| VolumeRaw.WriteVertexPlane | plugins/volume_raw.cpp:92-108 | the middle loop appends the points of plane `k` |
| VolumeRaw.WriteVertexRow | plugins/volume_raw.cpp:96-107 | the innermost loop appends the points of row `j` of plane `k` |
| VolumeRaw.LoadAsUnstructured | plugins/volume_raw.cpp:65-183 | only `float` voxels are accepted; the result holds the grid vertices, the hexahedron indices and the bounding box `[0,0,0,d0,d1,d2]` |
| VolumeRaw.UnstructuredWellFormed | plugins/volume_raw.cpp:113-143 | the unstructured grid has `8 * num_hexahedrons` indices, all naming grid points |
| HygCsv.ParseInt | scripts/hygcsv2json.py:34 | `int()` succeeds exactly on optionally signed decimal digits |
| HygCsv.FirstOf | scripts/hygcsv2json.py:37 | the first occurrence of a character of the set, or the end of the text |
| HygCsv.IntIsFloat | scripts/hygcsv2json.py:33-39 | everything `int()` accepts, `float()` accepts too |
| HygCsv.CoerceMeaning | scripts/hygcsv2json.py:28-39 | a field of a `STRING_FIELDS` column is kept verbatim; otherwise `''` becomes None, an integer literal an integer, a float literal a float, and anything else stays a string and is the only case reported |
| HygCsv.CoerceDecimal | scripts/hygcsv2json.py:33-34 | a number written in decimal, with or without a minus sign, comes back as that integer |
| HygCsv.Find | scripts/hygcsv2json.py:41 | the place of a key in the entry, or none when no pair has it |
| HygCsv.Put | scripts/hygcsv2json.py:41 | `entry[key] = value`: the key then has that value; a key already present keeps its place, a new key goes at the end |
| HygCsv.PutOther | scripts/hygcsv2json.py:41 | putting one key leaves every other key's value as it was |
| HygCsv.PutDistinct | scripts/hygcsv2json.py:41 | a dictionary without repeated keys stays so |
| HygCsv.BuildNext | scripts/hygcsv2json.py:24-41 | one more assignment is one more `Put` |
| HygCsv.BuildDistinct | scripts/hygcsv2json.py:24-41 | the dictionary never holds a key twice |
| HygCsv.BuildAbsent | scripts/hygcsv2json.py:24-41 | a key never assigned has no value |
| HygCsv.BuildLast | scripts/hygcsv2json.py:24-41 | a key takes the value of its last assignment |
| HygCsv.Pairs | scripts/hygcsv2json.py:26 | pair `j` of `zip(columns, row)` is column `j` with its coerced field |
| HygCsv.Warned | scripts/hygcsv2json.py:39 | at most one message per field |
| HygCsv.EntryOfDistinct | scripts/hygcsv2json.py:24-41 | an entry never holds a column twice, however often the header repeats it |
| HygCsv.EntryOfAbsent | scripts/hygcsv2json.py:26-41 | a column outside the zipped pairs has no value in the entry |
| HygCsv.EntryOfLast | scripts/hygcsv2json.py:26-41 | a column takes the coerced field of its last occurrence among the zipped pairs |
| HygCsv.Zipped | scripts/hygcsv2json.py:26 | `zip` stops at the shorter of the header and the row |
| HygCsv.RowStep | scripts/hygcsv2json.py:26-41 | one more pair puts its coerced field and reports it when it could not be converted |
| HygCsv.ConvertRow | scripts/hygcsv2json.py:24-41 | the loop over `zip(columns, row)` builds the entry of the zipped pairs and reports the unconvertible fields in order |
| HygCsv.Entries | scripts/hygcsv2json.py:19-43 | one entry per data row, in input row order, each zipped with the first row |
| HygCsv.Convert | scripts/hygcsv2json.py:13-43 | the first row gives the columns and every later row an entry, in row order; a file without rows makes `next(r)` raise |
| TraceViewport.Join | scripts/re_trace_viewport.py:65 | `' '.join` of no parts is empty, of one part that part |
| TraceViewport.Message | scripts/re_trace_viewport.py:64-70 | a log line is the stamp, ` \| ` and the joined arguments, and the empty line exactly when there are no arguments |
| TraceViewport.Pushed | scripts/re_trace_viewport.py:71-73 | the queue never exceeds `MAIN_LOG_SIZE`; a full queue drops its oldest line before the new one goes at the end |
| TraceViewport.Last | scripts/re_trace_viewport.py:71-73 | the last `n` lines, or all of them when there are fewer |
| TraceViewport.Logged | scripts/re_trace_viewport.py:63-73 | a queue fed from empty holds at most 25 lines |
| TraceViewport.LoggedIsLast | scripts/re_trace_viewport.py:63-73 | the main queue always holds the 25 most recent lines, oldest first |
| TraceViewport.Engine.constructor | scripts/re_trace_viewport.py:28-44 | empty logs and zero counters |
| TraceViewport.Engine.ClearLogViewUpdate | scripts/re_trace_viewport.py:57-58 | empties the view-update log and nothing else |
| TraceViewport.Engine.ClearLogViewDraw | scripts/re_trace_viewport.py:60-61 | empties the view-draw log and nothing else |
| TraceViewport.Engine.LogMain | scripts/re_trace_viewport.py:63-73 | `log_main` puts the line on the bounded main queue and changes nothing else |
| TraceViewport.Engine.LogViewUpdate | scripts/re_trace_viewport.py:75-82 | appends the line at the end of the view-update log |
| TraceViewport.Engine.LogViewDraw | scripts/re_trace_viewport.py:84-91 | appends the line at the end of the view-draw log |
| TraceViewport.Engine.LogImage | scripts/re_trace_viewport.py:93-135 | the lines drawn are the main queue's, then the view-update log's, then the view-draw log's; draining and rebuilding the queue leaves it as it was |
| TraceViewport.Engine.BeginViewUpdate | scripts/re_trace_viewport.py:141-151 | `view_update` clears its log, increments `update_count`, logs the update's number on the main queue and writes its three header lines |
| TraceViewport.Engine.BeginViewDraw | scripts/re_trace_viewport.py:186-198 | `view_draw` does the same for its log and `draw_count` |
| FakerParse.Bumped | faker/parse.py:56-68 | a per-key counter starts at 1 and otherwise goes up by one; other keys keep their counts |
| FakerParse.NewObject | faker/parse.py:51-82 | `new_object` counts the type and the address, warns when the address was seen before, numbers the handle `(addr, seqnr)` and the label `type#count`, and fails, as its assertions do, when the address is live or the handle known |
| FakerParse.CountKeepsRegistry | faker/parse.py:56-77 | after counting, the new handle belongs to no object and the new label to none |
| FakerParse.RegisterKeepsInv | faker/parse.py:79-80 | registering a new object under a new handle and label keeps the state consistent |
| FakerParse.NewObjectKeepsInv | faker/parse.py:51-82 | from a consistent state `new_object` fails exactly when the address is still live, adds a new handle and a label no other object has, and keeps the state consistent |
| FakerParse.GetObjectByAddr | faker/parse.py:85-93 | the live object at the address, or a warning naming the call if given and no object |
| FakerParse.GetObjectByAddrKeepsInv | faker/parse.py:85-93 | a found object is known and has that address; a lookup keeps the state consistent |
| FakerParse.UpdateKeepsInv | faker/parse.py:118-143 | changing an object without touching its type, label or references keeps the state consistent |
| FakerParse.SetProperty | faker/parse.py:118-121 | the field has the value, other fields are kept, the object is dirty when asked and nothing else changes |
| FakerParse.SetProperties | faker/parse.py:229-256 | every listed argument becomes a field, no field is lost and nothing but the fields changes |
| FakerParse.AddEdge | faker/parse.py:123-126 | the labelled edge leads to the object, other edges are kept, the object is dirty when asked and nothing else changes |
| FakerParse.Commit | faker/parse.py:139-140 | the object is clean and nothing else changes |
| FakerParse.Incref | faker/parse.py:142-143 | one reference more and nothing else changes |
| FakerParse.AddReference | faker/parse.py:128-137 | fails when the object already references the target; otherwise appends it to the references, adds one to its count and records the source, keeping the other sources |
| FakerParse.AddReferenceKeepsInv | faker/parse.py:128-137 | a reference between known objects keeps the state consistent |
| FakerParse.ReleasedKeepsInv | faker/parse.py:145-161 | whatever a release changes (counts falling, deletion flags rising, live addresses and sources shrinking, the log growing) keeps the state consistent |
| FakerParse.ReleasedChain | faker/parse.py:151-153 | a release that continues another adds up to one release and keeps every reference known |
| FakerParse.DecrementedReleased | faker/parse.py:146 | one reference fewer is a release and lowers the count by one |
| FakerParse.PruneReleased | faker/parse.py:153 | removing a source is a release |
| FakerParse.Decref | faker/parse.py:145-161 | `decref` lowers the count; when it reaches zero and the cascade completes, every referenced object has been released and has lost this one as a source, the object is flagged deleted, its address is forgotten and its handle recorded deleted once |
| FakerParse.DeletedUnlinked | faker/parse.py:151-159 | the cuts made by the loop over the references survive the deletion that follows |
| FakerParse.ReleaseAll | faker/parse.py:151-153 | the loop releases each reference from position `i` and removes this object from its sources; a loop that completes has cut every one |
| FakerParse.UnlinkedStep | faker/parse.py:151-153 | cutting reference `i` and then those after it cuts all from `i` on |
| FakerParse.MarkDeleted | faker/parse.py:155-161 | the object is flagged deleted and its address forgotten; the step succeeds, records the handle and logs the deletion exactly when the address was live and the handle not yet deleted |
| FakerParse.DecrefAboveOne | faker/parse.py:146-149 | above one reference `decref` only lowers the count |
| FakerParse.OspNew | faker/parse.py:220-226 | every `ospNew*` creates a fresh object at the returned address with one reference, and fails exactly when the address is live |
| FakerParse.NewPlainStep | faker/parse.py:228-271 | `ospNewMaterial`, `ospNewData` and the typed `ospNew*` calls: a new dirty object with one reference whose arguments are fields |
| FakerParse.NewFrameBufferStep | faker/parse.py:266-268 | `ospNewFrameBuffer`: a new object with one reference that starts clean |
| FakerParse.Link | faker/parse.py:277-278 | an edge to the other object and a reference on it; fails when it is already referenced |
| FakerParse.NewLinkedStep | faker/parse.py:273-292 | geometric and volumetric models and instances get an edge to, and a reference on, their argument when its address is known; a live address fails |
| FakerParse.LinkSources | faker/parse.py:258-264 | every source must be a live address, and each gets an edge `[idx]` and a reference |
| FakerParse.NewSharedDataStep | faker/parse.py:242-264 | `ospNewSharedData` succeeds only when its address was free and every source was live or is the new object |
| FakerParse.CommitStep | faker/parse.py:345-350 | `ospCommit` makes a known object clean and never fails |
| FakerParse.SetReferenceStep | faker/parse.py:359-369 | `ospSetParam` of an object type sets the named edge to the other object and marks the object dirty; an unknown `mem` is reported and the call goes on |
| FakerParse.SetValueStep | faker/parse.py:370-373 | `ospSetParam` of a value type sets the property and marks the object dirty when `mem` is given |
| FakerParse.ReleaseStep | faker/parse.py:313-320 | `ospRelease(0)` only warns, an unknown address only warns, a known object loses one reference |
| FakerParse.Step | faker/parse.py:205-379 | every handled line keeps the state consistent |
| FakerParse.Replay | faker/parse.py:205-379 | the lines in order, stopping at the first failing one, keep the state consistent |
| FakerParse.ReplayLog | faker/parse.py:203-393 | the loop over the log ends in a consistent state, the one `Replay` gives: labels stay distinct, every live address names its object and every reference a known one |
| OldServer.HexDigit | ospray_render_server.cpp:115 | `%x` writes a value below 16 as one lowercase hex digit that reads back as that value |
| OldServer.Hex | ospray_render_server.cpp:115 | `%08x` writes exactly eight hex digits |
| OldServer.ParseHexOfHex | ospray_render_server.cpp:115 | `k` hex digits of a value below `16^k` read back as that value |
| OldServer.HexWords | ospray_render_server.cpp:112-116 | the loop writes eight hex characters per digest word, one word after the other |
| OldServer.HexWordsAt | ospray_render_server.cpp:115 | word `i` is written at `buf + (i << 3)`: characters `8i` to `8i + 8` |
| OldServer.Sha1Hex | ospray_render_server.cpp:102-119 | `get_sha1` returns 40 lowercase hex characters |
| OldServer.Sha1HexWords | ospray_render_server.cpp:107-116 | each group of eight characters reads back as its digest word |
| OldServer.Sha1HexInjective | ospray_render_server.cpp:102-119 | different digests give different texts |
| OldServer.Latin1 | ospray_render_server.cpp:445 | the characters of the text go out as one byte each |
| OldServer.Header | ospray_render_server.cpp:164-200 | `receive_mesh` never reads a colour array |
| OldServer.VolumeDefaultsMeaning | ospray_render_server.cpp:321-347 | the sampling rate is the property's or 0.1, adaptive sampling is off, gradient shading on, and `data_range` gives the value range when present |
| OldServer.VolumeItems | ospray_render_server.cpp:366-437 | a loaded volume adds at most one item to the world |
| OldServer.VolumeReply | ospray_render_server.cpp:440-451 | the reply is 64 bytes: the 40 digest characters, then the six floats of the box |
| OldServer.FramebufferIsFrame | ospray_render_server.cpp:676-681 | a file below 4 GiB goes out as one length-prefixed frame, which a reader of frames gets back whole |
| OldServer.ClearFlags | ospray_render_server.cpp:736-739 | of the frames of a render of `n` samples only the first clears the framebuffer |
| OldServer.ClearFlagsNext | ospray_render_server.cpp:736-739 | one more sample adds one flag, set only for sample 1 |
| OldServer.SampleStep | ospray_render_server.cpp:736-743 | after sample `i`, one clear flag per sample and, over a socket that takes every send whole, the framebuffers of samples 1 to `i` in order |
| OldServer.ServerState.constructor | ospray_render_server.cpp:712-714 | no image, no framebuffer, no samples, no loaders and an empty world |
| OldServer.ServerState.ReceiveMesh | ospray_render_server.cpp:163-233 | the `MeshInfo` message, the vertices, the normals when flagged and the triangles are read in order; one instance of the mesh placed by the message's matrix joins the world; a failed receive returns false and leaves the world as it was |
| OldServer.ServerState.FindLoader | ospray_render_server.cpp:262-295 | the cached load function, or the `load` symbol of `voltype_<type>.so`, which is then cached; none when the plugin does not open or has no `load` |
| OldServer.ServerState.AddVolume | ospray_render_server.cpp:300-451 | it throws exactly when `sampling_rate` is not a number or boolean, `data_range` lacks two leading numbers, or the isovalues or four-entry slice plane hold an entry that does not convert, and then nothing is added or sent; otherwise the loaded volume joins the world as its properties say and the reply is the part of the digest one `send` took, then the box; over a socket that takes every send whole it is exactly the 64-byte reply |
| OldServer.ServerState.SendVolumeReply | ospray_render_server.cpp:443-451 | the digest in one unchecked-length `send`, then the box with `sendall` |
| OldServer.ServerState.ReceiveVolume | ospray_render_server.cpp:235-451 | the `VolumeInfo` message is the next frame and nothing more is read; once it arrived, it throws exactly when the properties do not parse, lack a string `voltype`, or, with a load function found, hold a value that does not convert, with nothing added or sent; a completed receive adds the items of what the load function now cached for the type gives, and cached load functions stay |
| OldServer.ServerState.ReceiveImageSettings | ospray_render_server.cpp:470-484 | the image settings come from the message when it arrives, and the framebuffer is remade only when the size changed |
| OldServer.ServerState.ReceiveSettings | ospray_render_server.cpp:470-598 | image, render, camera and light settings, one message each and none checked; a missing message leaves the previous settings |
| OldServer.ServerState.ReceiveElement | ospray_render_server.cpp:606-620 | a handled mesh took its `MeshInfo` frame and arrays off the inbox and added one instance; a handled volume took its `VolumeInfo` frame, names a type, converts, and added what that type's cached load function gives; any other type reads nothing and adds nothing; it throws exactly for a volume that raises once its message arrived; a failed mesh or a volume that throws adds nothing |
| OldServer.ServerState.ReceiveScene | ospray_render_server.cpp:455-624 | after the settings, on a new world, the elements are handled as `ReceiveElements` says |
| OldServer.ServerState.ReceiveElements | ospray_render_server.cpp:596-622 | elements are handled until the first of type `NONE`, each starting where the element before it left the inbox and each but the last handled in full, so a complete scene whose frames all arrived consumed its element frames, each followed by its element's data, and its world is what those elements added; no `SceneElement` receive is checked: one that does not arrive leaves the type held (the default-constructed element's before the first), handled again, so a mesh or volume held on a closed socket is refused at its next receive and an element of another type stalls the loop; a failed mesh or volume receive returns false at once and a throwing volume crashes |
| OldServer.ServerState.NextElement | ospray_render_server.cpp:604 | the unchecked element receive: the type of the frame that arrived, starting the inbox, or else the type held; the receive leaves a closed socket as it was and otherwise uses it up further |
| OldServer.AddedSize | ospray_render_server.cpp:600-624 | a scene's world holds at most one item per element |
| OldServer.ServerState.SendFramebuffer | ospray_render_server.cpp:655-694 | the size as four bytes in one unchecked `send`, then the file; over a socket that takes every send whole exactly the frame goes out |
| OldServer.ServerState.RenderSamples | ospray_render_server.cpp:736-743 | one frame per sample, only the first clearing, each followed by its framebuffer in order |
| OldServer.ServerState.RenderSample | ospray_render_server.cpp:738-742 | sample `i`: its frame, clearing only when `i == 1`, then its framebuffer |
| OldServer.ServerState.Serve | ospray_render_server.cpp:728-747 | a complete scene is rendered sample by sample; a refused one closes the socket and renders nothing; a crashed or stalled one renders nothing |
| CoreServer.VolumeDefaults | core/ospray_render_server.cpp:337-395 | `_sampling_rate`, `_gradient_shading`, `_pre_integration` and `_single_shade` are exactly the properties' members under those keys when present and otherwise default to 0.1, false, false and true; adaptive sampling is off; the value range is the `data_range` member exactly when there is one |
| CoreServer.NoPropertiesDefaults | core/ospray_render_server.cpp:339-357 | a volume without any of the four properties gets exactly the defaults |
| CoreServer.VolumeRepresentation | core/ospray_render_server.cpp:445-516 | isosurfaces of exactly the `isovalues` member when the properties hold one, else a slice on exactly the `slice_plane` member when it has four values (nothing when it has another size), else the volume itself |
| CoreServer.IsovaluesConvert | core/ospray_render_server.cpp:451-456 | isovalues convert exactly when they are null, an empty object or an array of numbers and booleans; a scalar or an object with members throws |
| Json.StringMember | core/ospray_render_server.cpp:263 | a member read as a string (the volume type under `_plugin` here, under `voltype` in the old server) exists exactly when the key is present and holds a string, and is that string; otherwise the json library throws |
| CoreServer.Resize | core/ospray_render_server.cpp:530-542 | the framebuffer takes the settings' size, and a new one is made exactly when the width or the height differs |
| CoreServer.ResizeIdempotent | core/ospray_render_server.cpp:532 | the same image settings received again make no second framebuffer |
| CoreServer.FrameFilesDiffer | core/ospray_render_server.cpp:822 | different samples are saved to different files |
| CoreServer.OnlyLastEnds | core/ospray_render_server.cpp:809-857 | in a finished render only the last result is not a frame |
| CoreServer.SceneState.constructor | core/ospray_render_server.cpp:60-73 | no framebuffer, no samples, nothing loaded and an empty world |
| CoreServer.SceneState.ReceiveMeshData | core/ospray_render_server.cpp:114-199 | the `MeshData` header, the vertices, the normals and colours when flagged and the triangles are read in order, and the model is stored under the element's name, replacing an earlier one; nothing is stored when a receive fails |
| CoreServer.SceneState.ReceiveMeshObject | core/ospray_render_server.cpp:202-229 | an instance of the linked model, placed by the element's matrix, joins the world exactly when the model was loaded |
| CoreServer.SceneState.FindLoader | core/ospray_render_server.cpp:263-303 | the cached load function, or the `load` symbol of `volume_<type>.so`, then cached; a plugin that does not open or has no `load` is reported to the client with its message |
| CoreServer.SceneState.ReceiveVolumeData | core/ospray_render_server.cpp:231-405 | it throws exactly when the properties do not parse, lack a string `_plugin`, or, once the load function gave a volume, hold a `_sampling_rate` that is not a number or boolean, a shading flag that is not a boolean or a `data_range` without two leading numbers; a conversion that throws comes after the load function was cached, with nothing stored or replied; otherwise a volume the load function returns is stored under the element's name with its parameters, and the reply carries the load function's flag and message, the digest of the properties text and the box |
| CoreServer.SceneState.ReceiveVolumeObject | core/ospray_render_server.cpp:408-520 | the linked volume joins the world as its representation says exactly when it was loaded; it throws exactly when the properties do not parse, or the volume was loaded and its isovalues or four-entry slice plane hold an entry that does not convert to a float, and then the world is unchanged |
| CoreServer.SceneState.ReceiveElement | core/ospray_render_server.cpp:703-719 | only mesh data reads past the element's frame, its model stored under the element's name with its `MeshData` frame and arrays taken off the inbox (or the models unchanged after a failed receive); a mesh object adds the linked model exactly when it was loaded; volume data stores the volume its plugin's cached load function gives, with its reply, or nothing; a volume object adds the linked volume as its properties say; it throws exactly when a volume element's properties do not parse, name no plugin, or hold a value that does not convert, and then nothing changed but a load function cached |
| CoreServer.SceneState.ReceiveSettings | core/ospray_render_server.cpp:527-620 | image, render, camera and light settings in that order; the framebuffer follows the image settings and the sample count the render settings; a message that does not arrive leaves its part as it was |
| CoreServer.SceneState.ReceiveScene | core/ospray_render_server.cpp:523-734 | when the four settings arrive they are the first four frames; the framebuffer follows the image settings and the sample count the render settings; then, on an empty world, the elements are handled as `ReceiveElements` says |
| CoreServer.SceneState.ReceiveElements | core/ospray_render_server.cpp:694-722 | elements are handled until the first of type `NONE`, each starting where the element before it left the inbox and each but the last handled as its type says, the stage passing from one to the next; no receive is checked: a frame that does not arrive leaves the element held (the default-constructed one before the first), which is handled again; a complete scene whose last frame arrived leaves the inbox right after it; a volume that throws ends it with nothing of that volume done but its load function cached; a frame that does not arrive on a closed socket stalls it, the source handling the held element forever |
| CoreServer.SceneState.NextElement | core/ospray_render_server.cpp:699 | the unchecked element receive: the element of the frame that arrived, starting the inbox, or else the element held; the receive leaves a closed socket as it was and otherwise uses it up further |
| CoreServer.ChainIsFrames | core/ospray_render_server.cpp:694-722 | when every element frame arrived and none is mesh data, the inbox a scene consumed is exactly its element frames, one after the other |
| CoreServer.FramedOfParsed | core/ospray_render_server.cpp:530-619 | four messages parsed off the stream one after the other are, together, a prefix of it |
| CoreServer.RenderLoop.constructor | core/ospray_render_server.cpp:868-876 | not rendering, with empty queues and nothing forwarded |
| CoreServer.RenderLoop.WorkerStep | core/ospray_render_server.cpp:809-857 | while samples remain, the next is rendered, saved and pushed as `FRAME`, and a waiting message taken; a cancel pushes `CANCELED` and ends the thread; past the last sample the thread pushes `DONE` and ends |
| CoreServer.RenderLoop.FinishRun | core/ospray_render_server.cpp:856-857 | past the last sample `DONE` is pushed and the thread ends |
| CoreServer.RenderLoop.RenderSample | core/ospray_render_server.cpp:809-835 | sample `i` is rendered, saved to its file and pushed as `FRAME` |
| CoreServer.RenderLoop.TakeInput | core/ospray_render_server.cpp:839-851 | after a frame a waiting message is taken; a cancel pushes `CANCELED` and ends the thread |
| CoreServer.RenderLoop.OnStartAsWritten | core/ospray_render_server.cpp:901-916 | `START_RENDERING` is ignored while rendering, and otherwise starts the thread with the input queue as it is |
| CoreServer.RenderLoop.OnStart | core/ospray_render_server.cpp:901-916 | the same with the input queue emptied first, so every cancel the thread sees was received since its start |
| CoreServer.RenderLoop.OnCancel | core/ospray_render_server.cpp:918-927 | `CANCEL_RENDERING` is queued for the thread only while rendering |
| CoreServer.RenderLoop.ForwardResult | core/ospray_render_server.cpp:942-976 | while rendering, the oldest waiting result is forwarded; `CANCELED` or `DONE` clears the flag, after which the thread has ended and no result waits |
| CoreServer.EndIsLast | core/ospray_render_server.cpp:942-976 | the first waiting result that is not a frame comes from a thread that has ended, and nothing follows it |
| CoreServer.RunGrows | core/ospray_render_server.cpp:809-835 | pushing the next sample's frame keeps the render running in order |
| CoreServer.EndDone | core/ospray_render_server.cpp:856-857 | after the last sample `DONE` ends the render |
| CoreServer.EndCanceled | core/ospray_render_server.cpp:842-850 | after a frame a cancel ends the render |
| CoreServer.ClientTurn | core/ospray_render_server.cpp:880-938 | a waiting message is received and dispatched; a render it starts begins at sample 1 with the input queue as it was (the start as written), so a cancel left waiting counts as leftover; cancels stay accounted for; with nothing waiting nothing changes |
| CoreServer.HandleConnection | core/ospray_render_server.cpp:865-983 | turns of the loop and frames of the thread interleave; the loop stays consistent and its cancels accounted for, and when it ends, it ended on a turn of its own |
| CoreServer.LateCancel | core/ospray_render_server.cpp:918-976 | a cancel arriving after the thread pushed `DONE` but before the loop forwarded it is queued, and outlives the render |
| CoreServer.NextRender | core/ospray_render_server.cpp:901-916 | the next render, started with that cancel still queued, is canceled after its first frame as written and completes when the queue is emptied at the start |
| CoreServer.LeftoverCancelAsWritten | core/ospray_render_server.cpp:901-916 | the leftover cancel cancels the next render on the connection although none was sent after its start |
| CoreServer.LeftoverCancelCorrected | core/ospray_render_server.cpp:901-916 | with the input queue emptied at the start the second render completes |
| RenderServer.Int32 | server/main.cpp:2906-2911 | a `uint32_t` assigned to an `int` keeps its bits: a value in the signed range congruent to the word modulo 2^32 |
| RenderServer.Int32Injective | server/main.cpp:2906 | two words that read as the same `int` are the same word |
| RenderServer.Decimal | server/main.cpp:2911 | `%d` prints at least one character |
| RenderServer.DecimalInjective | server/main.cpp:2911 | different integers print differently |
| RenderServer.VersionMismatch | server/main.cpp:2911 | the refusal text is never empty |
| RenderServer.HandleHello | server/main.cpp:2901-2927 | success exactly when the client's version is `PROTOCOL_VERSION` (2), with an empty message; otherwise the message naming both versions |
| RenderServer.RefusalNamesVersion | server/main.cpp:2908-2911 | two clients refused with the same text sent the same version |
| RenderServer.RefusalPrintsLargeVersionNegative | server/main.cpp:2906-2911 | a version word of 2^31 or more is printed with a minus sign |
| RenderServer.AfterFrame | server/main.cpp:3457-3494 | done after the last sample at factor 1; a factor above 1 is halved (`>>= 1`) for the same sample; at factor 1 the sample count goes up |
| RenderServer.FramesInOrder | server/main.cpp:3457-3494 | a render runs the halvings of its starting factor for the first sample, then every sample to the last at full resolution, in order |
| RenderServer.HalvingsLength | server/main.cpp:3482-3488 | a factor is halved `Log2(factor)` times before it reaches 1 |
| RenderServer.SamplesLength | server/main.cpp:3490-3494 | samples `first` to `last` make `last - first + 1` frames |
| RenderServer.RenderLength | server/main.cpp:3457-3494 | a render of `n` samples from factor `f` takes `Log2(f) + n` frames, the last being the last sample at full resolution |
| RenderServer.SamplesLast | server/main.cpp:3457 | the last full-resolution frame is the last sample |
| RenderServer.PastLastSampleNeverFinishes | server/main.cpp:3457 | a render already past its last sample (`render_samples` 0) never finishes on its own |
| RenderServer.FilesSentBeforeLast | server/main.cpp:3364-3369 | before the last sample, the frames sent are those of the multiples of the update rate |
| RenderServer.FilesSentByRender | server/main.cpp:3364-3369 | a final render sends `samples / rate` frames plus the last when the rate does not divide it; without an update rate only the last |
| RenderServer.NoRateSendsNothingEarly | server/main.cpp:3364-3369 | without an update rate no frame before the last is sent |
| RenderServer.Pad4 | server/main.cpp:3372 | `%04d` prints at least four digits |
| RenderServer.ZeroPad | server/main.cpp:3372 | padding with zeros keeps the value and reaches the width |
| RenderServer.LeadingZero | server/main.cpp:3372 | a leading zero does not change a digit string's value |
| RenderServer.FinalFileNamesDiffer | server/main.cpp:3372 | every sample of a final render is saved to a file of its own |
| RenderServer.BuildFramebuffers | server/main.cpp:3180-3216 | one framebuffer per reduction factor 1 to `factor`, each of the size divided by its factor, rounded toward zero |
| RenderServer.PixelBytes | server/main.cpp:3423 | the size of a colour buffer of four floats per pixel, held in an `int`, lies in the 32-bit range |
| RenderServer.PixelBytesWrap | server/main.cpp:3423 | that size agrees with the byte count modulo 2^32 and equals it below 2^31 |
| RenderServer.FrameReplies | server/main.cpp:3350-3451 | the FRAME result names the sample, factor and reduced size; in final mode a saved frame is named by its sample and followed by its file, any other is `<skipped>` with no data; in interactive mode `<memory>` is followed by the colour buffer, on the render output socket when there is one, announced with the size `PixelBytes` gives |
| RenderServer.PixelSizeWraps | server/main.cpp:3423 | a reduced framebuffer of 16384 by 8192 pixels announces the size -2^31 |
| RenderServer.Advance | server/main.cpp:3295-3510 | a turn without a message keeps a running render at a positive sample |
| RenderServer.QuietRun | server/main.cpp:3264-3510 | a run of turns without messages keeps a running render at a positive sample |
| RenderServer.QuietRenderSendsFrames | server/main.cpp:3331-3510 | a render left alone, whose frames finish, sends the FRAME results of exactly the frames `Frames` lists, in order (the halvings of its factor, then every sample to the last), then `DONE`, and ends idle after as many turns as it has frames |
| RenderServer.ApplyUpdate | server/main.cpp:768-1000 | `handle_update_plugin_instance` applied to the store keeps it consistent |
| RenderServer.RenderServer.constructor | server/main.cpp:56-125 | an empty scene, no framebuffers, idle, reduction factor and update rate 1 |
| RenderServer.RenderServer.UpdateFramebuffer | server/main.cpp:2176-2194 | new settings take the size and format and drop every framebuffer; the same settings change nothing |
| RenderServer.RenderServer.EnsureIdle | server/main.cpp:2930-2962 | a running render is cancelled and the framebuffer of its factor made anew at the reduced size; when idle nothing changes |
| RenderServer.RenderServer.StartRendering | server/main.cpp:3152-3245 | the sample count and mode come from the message: final mode at factor 1 with the message's update rate, interactive mode at the message's factor; the framebuffers are rebuilt when their count does not fit or a cancel spoilt them; an interactive factor below 1 leaves C behaviour undefined |
| RenderServer.RenderServer.PrepareFramebuffers | server/main.cpp:3180-3216 | the framebuffers are rebuilt when their number, as a `size_t`, does not fit the factor or a cancel spoilt them; either way there is one per factor after |
| RenderServer.RenderServer.CancelRender | server/main.cpp:3300-3327 | a cancel stops the render and marks the framebuffers for rebuilding; the mode is idle before the output test, so `CANCELED` always goes to the connection's own socket |
| RenderServer.RenderServer.FrameFinished | server/main.cpp:3331-3510 | the frame's replies go out; then `DONE` (to the render output socket when set, whatever the mode) and idle, or the next sample or halved factor with the reduced size recomputed |
| RenderServer.RenderServer.UpdatePluginInstance | server/main.cpp:768-1000 | the received update is applied to the store and the plugin's result sent when there is one; an update that does not arrive changes nothing |
| RenderServer.RenderServer.HandleClientMessage | server/main.cpp:2965-3148 | HELLO answers the version check and ends the connection on a mismatch; BYE and QUIT end it; scene messages stop any render first; a settings message that does not arrive fails; START_RENDERING while rendering fails the `assert`; CANCEL sets the flag only while rendering; REQUEST_RENDER_OUTPUT succeeds only when idle and without an output socket; UPDATE_OBJECT and UPDATE_MATERIAL consume their message frames and carry on; GET_SERVER_STATE sends a `ServerStateResult`; the connection ends with failure only on a HELLO mismatch, a missing settings message or a refused REQUEST_RENDER_OUTPUT, and the server stops only on START_RENDERING |
| RenderServer.RenderServer.HandleSceneMessage | server/main.cpp:2981-3100 | the messages that stop a render leave the server idle; only BYE and QUIT end the connection with success, and only a settings message that does not arrive with failure; UPDATE_OBJECT and UPDATE_MATERIAL consume the frame of their message, and the frame of the message after it when the update's type calls for one, and change neither the store nor the replies |
| RenderServer.RenderServer.ReceiveSceneUpdate | server/main.cpp:2112-2170 | an object or material update takes its own frame from the inbox and, when its type is followed by a second message (volume, slices, light, or a known material), that message's frame too; nothing is written |
| RenderServer.RenderServer.HandleControlMessage | server/main.cpp:2965-3148 | HELLO, QUERY_BOUND, START_RENDERING, CANCEL_RENDERING and REQUEST_RENDER_OUTPUT as in `handle_client_message`; GET_SERVER_STATE sends a `ServerStateResult` and carries on; an unhandled type changes nothing |
| RenderServer.RenderServer.EndConnection | server/main.cpp:2981-3006 | BYE and QUIT stop the render; the output socket test that follows is then never true |
| RenderServer.RenderServer.ReceiveSettings | server/main.cpp:3018-3091 | a settings message that does not arrive ends the connection with failure |
| RenderServer.RenderServer.Turn | server/main.cpp:3264-3510 | the message handled is the decoded payload of the frame that arrived; a turn ends the connection with success only for BYE, QUIT or REQUEST_RENDER_OUTPUT, with failure for a failed receive or decode or the failing messages, and stops the server only for START_RENDERING; with no message waiting it leaves the socket alone and moves the render on as `Advance` says |
| RenderServer.RenderServer.Progress | server/main.cpp:3295-3510 | the render and the replies after the message part of a turn are exactly those `Advance` gives: a cancel stops the render and sends `CANCELED`; otherwise a finished frame is sent and advances the render as `AfterFrame` says, with `DONE` after the last; otherwise nothing happens |
| RenderServer.RenderServer.HandleConnection | server/main.cpp:3250-3521 | the loop returns with success only after BYE, QUIT or REQUEST_RENDER_OUTPUT, with failure only after a failed receive or decode or a failing message, stops the server only on START_RENDERING, and never takes back a reply; with no message waiting the render and the replies follow `QuietRun` |
| RenderServer.ReceiveUpdate | server/main.cpp:774-776 | the update is the decoded payload of the frame that arrived |
| Server.Failures | server/main.cpp:309-393 | at most one failure per definition |
| Server.FailuresMeaning | server/main.cpp:309-393 | no failures exactly when every definition is met (a missing value only for an optional parameter; an array when the length is above 1; otherwise a primitive of the integer, float or string type asked for), and the failures are the names of the definitions not met |
| Server.CheckPluginParameters | server/main.cpp:309-393 | the check succeeds exactly when every definition is met, and it goes on past the first failure, reporting every one in definition order |
| Server.CheckParameter | server/main.cpp:318-388 | one definition is checked as above |
| Server.TypeWord | server/main.cpp:224-235 | `volume`, `geometry` or `scene` for the three plugin types, nothing for another |
| Server.InternalName | server/main.cpp:222-237 | the cache key is the type word, an underscore and the plugin name |
| Server.InternalNameInjective | server/main.cpp:222-237 | different plugins of known types never share a cache key |
| Server.LibraryNameAgreesWithPluginInterface | core/plugin2.h:160-169 | the library the server opens is the one the plugin interface names in `so_name` |
| Server.DefinitionKey | server/main.cpp:436 | the key under which an instance's plugin definition was cached |
| Server.DefinitionKeyAsWritten | server/main.cpp:436 | the bare plugin name, as written |
| Server.DefinitionKeyAsWrittenMissesOwnPlugin | server/main.cpp:436 | the bare name never equals the internal name, so when the instance's own definition is the only one loaded no clear-data function is found |
| Server.FreeMeshes | server/main.cpp:478 | the named entries are marked freed and stay in the map; the others are untouched |
| Server.InitialStore | server/main.cpp:56-125 | nothing registered, and only the ambient light in the world |
| Server.LoadFailure | server/main.cpp:256-287 | every failure to load a library sets a message |
| Server.EnsurePluginIsLoaded | server/main.cpp:212-305 | an empty name fails without a message; a cached definition is returned without opening the library; otherwise `InternalName + ".so"` is opened and initialised, and on success the definition is cached under the internal name, on failure the matching message set |
| Server.LoadedPluginIsCached | server/main.cpp:239-303 | a plugin that loaded once is never opened again: a second request returns the same definition and changes nothing |
| Server.DeletePluginInstance | server/main.cpp:396-452 | the name leaves the instances, the states and the data types; private data is handed to the clear-data function of whatever definition is cached under the bare plugin name, and to none when there is no such definition; an unknown name is reported and ignored |
| Server.DeletePluginInstanceCorrected | server/main.cpp:396-452 | the intended deletion: the same removals, and private data handed to the instance's own plugin under its internal-name key |
| Server.DeleteAsWrittenNeverClearsOwnData | server/main.cpp:434-444 | as written, an instance's state never reaches its own plugin's clear-data function, which the corrected deletion always calls when there is private data; otherwise the two agree |
| Server.ReleaseCallsWithoutClash | server/main.cpp:434-444 | when no cached key is an instance's bare plugin name, deleting any names calls no clear-data function |
| Server.DeleteBlenderMesh | server/main.cpp:455-481 | the mesh is freed and its data type erased, but the freed mesh stays in the mesh map; a name that is not a Blender mesh is ignored |
| Server.DeleteObject | server/main.cpp:488-502 | the object is gone and every other object is kept |
| Server.DeleteSceneData | server/main.cpp:505-524 | a plugin instance or a Blender mesh is deleted by its registered type; an unknown name is ignored; it is the deletion of the one-name set |
| Server.DeleteSceneStep | server/main.cpp:505-524 | deleting names one at a time adds up to deleting the set of them |
| Server.DeleteEach | server/main.cpp:2838-2839 | deleting every collected name with `delete_scene_data`, in any order, deletes exactly that set |
| Server.DeleteAllSceneData | server/main.cpp:527-545 | every registered name is deleted and the type map is left empty |
| Server.DeleteEverything | server/main.cpp:527-545 | deleting every registered name empties the instances and states and makes, for every instance, the clear-data call `delete_plugin_instance` makes as written |
| Server.DeleteNonPlugins | server/main.cpp:2828-2839 | deleting all but the plugin instances keeps the instances, their states and their data |
| Server.ClearScene | server/main.cpp:2798-2852 | the world loses its instances and its lights but the ambient one, every scene object and material goes, and scene data goes too: all of it, or all but the plugin instances for `keep_plugin_instances` |
| Server.FindSceneObject | server/main.cpp:556-588 | an object of the name is returned when its type matches, or whatever its type when mismatches are kept; a mismatch is otherwise deleted and nothing returned |
| Server.UpdateRendererType | server/main.cpp:2578-2591 | a new renderer type drops every material; the same type changes nothing |
| Server.QueryBound | server/main.cpp:2753-2795 | the serialised bound of the instance with its size, or a failure naming the missing state, or "No bound specified" |
| Server.QueryBoundRoundTrip | server/main.cpp:2779-2787 | a client reading the bound's words back with the corrected reader gets the plugin's bound |
| Server.Register | server/main.cpp:985-995 | the instance, its state and its data type are registered under the update's name |
| Server.Generate | server/main.cpp:877-999 | load, check the generate function, check the parameters, generate, check what the type requires, register; it succeeds exactly when the instance registered is up to date, and any failure leaves only what loading changed |
| Server.GenerateWith | server/main.cpp:888-999 | with the definition loaded, the instance is registered, up to date and with the update's parameters and the current renderer type, exactly when the generate function exists, the parameters pass and generation succeeds and sets the geometry or volume its type requires; otherwise the store is unchanged and a failed generation reports failure |
| Server.UpdatePluginInstance | server/main.cpp:768-1000 | an unknown plugin type is refused without a reply; an up-to-date instance is reused with success; otherwise an instance of that name is deleted and a new one generated; success leaves an instance of the update's parameters |
| Server.RepeatedUpdateIsReused | server/main.cpp:820-875 | after a successful update the same update again is reused with success and no change, whatever the plugin would now do |
| Server.RendererChangeMakesStale | server/main.cpp:853-858 | a renderer change makes an instance that depends on it stale |
| Server.ArrayBytes | server/main.cpp:1072-1093 | `count * perItem * 4` computed in 32-bit unsigned arithmetic before it is widened: a multiple of 4 below 2^34 |
| Server.Stripped | server/main.cpp:1038-1039 | an updated mesh loses its normals and colours; nothing else changes |
| Server.PrepareMesh | server/main.cpp:1003-1048 | an existing Blender mesh is kept, stripped of normals and colours; other data of the name is deleted and a new mesh created, as for an unseen name |
| Server.AddMeshValid | server/main.cpp:1045-1047 | registering a new mesh under a free name keeps the store consistent |
| Server.ReceiveOptionalArray | server/main.cpp:1076-1090 | an array is read only when flagged, and then exactly its byte count |
| Server.ReceiveVertexArrays | server/main.cpp:1072-1090 | positions, then normals and colours when flagged, are read in that order with their exact byte counts; a failed read stops the upload |
| Server.ReceiveMeshArrays | server/main.cpp:1072-1094 | positions, normals if flagged, colours if flagged and indices are read in that order, each of the size the header gives |
| Server.ReceiveMeshUpload | server/main.cpp:1050-1094 | the `MeshData` header, then the arrays only when it announces vertices and triangles |
| Server.ApplyMeshUpload | server/main.cpp:1057-1120 | the header's counts are recorded; the geometry is replaced only when every array arrived |
| Server.MeshUpdateValid | server/main.cpp:1057-1120 | replacing a live mesh keeps the store consistent |
| Server.HandleUpdateBlenderMeshData | server/main.cpp:1003-1123 | the mesh entry is prepared, the header's counts recorded, a mesh without vertices or triangles refused, and the arrays set on the geometry only once all arrived; a failure leaves the geometry untouched |
| Blospray28.AsciiBytes | blospray.2.8.py:226 | encoding 7-bit JSON text as UTF-8 gives one byte per character, equal to its code |
| Blospray28.VolumeJson | blospray.2.8.py:204-223 | the properties' JSON exists exactly when no property key is empty (an empty key makes `k[0]` raise) |
| Blospray28.MeshRecord | blospray.2.8.py:377-412 | a mesh record starts with `M` and the vertex and triangle counts, and is 9 bytes plus 12 per vertex and 12 per triangle long |
| Blospray28.VolumeRecord | blospray.2.8.py:186-226 | a volume record starts with `V`, carries the JSON length at bytes 65-68 and ends with the JSON's bytes |
| Blospray28.ObjectBytes | blospray.2.8.py:360-412 | an object that is not a visible mesh adds nothing; otherwise its record starts with `V` for a volume and `M` for a mesh |
| Blospray28.SceneBytes | blospray.2.8.py:340-415 | the scene stream exists exactly when all three settings and every object's record can be packed, and it ends with `!` |
| Blospray28.BoxCorners | blospray.2.8.py:249-258 | the eight corners take their coordinates from the box entries that `CORNER_AXES` names |
| Blospray28.AxesApart | blospray.2.8.py:249-258 | two corners differ in at most three axes and in none exactly when they are the same combination |
| Blospray28.CornersAreCombinations | blospray.2.8.py:249-258 | the corners are the eight combinations of minimum and maximum per axis, each exactly once |
| Blospray28.EdgesJoinNeighbours | blospray.2.8.py:260-264 | each of the twelve edges joins two corners one axis apart, and no two edges join the same pair |
| Blospray28.NeighboursAreJoined | blospray.2.8.py:260-264 | every pair of corners one axis apart is joined by one of the edges |
| Blospray28.BoxMeshIsCube | blospray.2.8.py:249-264 | the volume-extent mesh is the box's wire frame: distinct corners, and edges joining exactly the neighbouring corners |
| Blospray28.DecodeId | blospray.2.8.py:235 | decoding a 7-bit id succeeds exactly when every byte is below 128, and then keeps every byte as a character; multibyte UTF-8 is refused rather than decoded |
| Blospray28.VolumeOf | blospray.2.8.py:231-271 | a decoded reply gives a 40-character id and a mesh whose corners and edges are those of the received box |
| Blospray28.VolumeOfReply | ospray_render_server.cpp:440-451 | the reply the old server sends for a volume is read back as its SHA-1 hex id and the same bounding box |
| Blospray28.SendEach | blospray.2.8.py:341-354 | on a connection that takes every send whole, the chunks go out in order, joined |
| Blospray28.ExportMesh | blospray.2.8.py:377-412 | a mesh with 2^32 or more vertices or triangles raises; otherwise, when sends go out whole, exactly the mesh record is sent |
| Blospray28.SendMeshArrays | blospray.2.8.py:388-412 | the counts, vertex array and triangle array go out as the tail of the mesh record |
| Blospray28.SendVolumeRecord | blospray.2.8.py:186-226 | an empty property key or an over-long JSON raises; otherwise exactly the volume record is sent |
| Blospray28.SendRows | blospray.2.8.py:186-201 | the tag and the four matrix rows go out as `V` followed by the matrix as one float array |
| Blospray28.RowsJoined | blospray.2.8.py:199-201 | sending the matrix row by row sends the same bytes as sending it row-major in one piece |
| Blospray28.SendJson | blospray.2.8.py:225-226 | the JSON length as four little-endian bytes, then the JSON's bytes |
| Blospray28.ReceiveExactly | blospray.2.8.py:231-233 | the receive loop takes exactly `n` bytes from the front of the stream, or stops on a closed connection |
| Blospray28.ReceiveVolumeReply | blospray.2.8.py:231-244 | 64 bytes are taken from the stream and decoded into the volume's id and box mesh |
| Blospray28.ExportVolume | blospray.2.8.py:184-271 | a volume export sends exactly the volume record and takes exactly the 64-byte reply, which decodes into the result; a bad key or over-long JSON raises |
| Blospray28.ExportObject | blospray.2.8.py:360-413 | one object sends its record; a volume also takes its reply, a mesh leaves the incoming stream alone; an unpackable object raises |
| Blospray28.ExportSettings | blospray.2.8.py:340-354 | image, camera and light settings go out as three length-prefixed messages, and a setting of 4 GiB or more raises |
| Blospray28.ExportNext | blospray.2.8.py:360-413 | one turn of the object loop keeps the sent bytes equal to the records of the objects so far and the replies read equal to their volumes |
| Blospray28.ExportObjects | blospray.2.8.py:360-413 | the object loop sends the records of all objects in order and reads one reply per volume, in order |
| Blospray28.ExportScene | blospray.2.8.py:335-415 | when the export completes, the stream sent is the scene stream and each volume's result is decoded from its own reply |
| Blospray28.SceneParts | blospray.2.8.py:340-415 | settings, object records and `!`, appended in turn, form the scene stream |
| Blospray28.ReadFramebuffer | blospray.2.8.py:69-86 | a complete read fills the buffer with exactly the next `width * height * 16` bytes, and on an open connection with enough data it always completes |
| Blospray28.ReadFramebufferToFile | blospray.2.8.py:88-100 | the file read is exactly one size-prefixed frame from the front of the stream, and a frame that is there is always read |
| Blospray28.ReadFrames | blospray.2.8.py:141-173 | splitting `n` frames from a stream gives `n` files |
| Blospray28.ReadFramesPrefix | blospray.2.8.py:141-173 | a stream from which `m` frames split also gives its first `k` frames, followed by one more |
| Blospray28.Files | ospray_render_server.cpp:734-747 | the files of samples 1 to `n`, in order |
| Blospray28.ParseFramebuffers | ospray_render_server.cpp:734-747 | what the old server's sample loop sends is read back by the add-on as exactly those files, in order, with nothing left over |
| Blospray28.Progress | blospray.2.8.py:173 | after sample `k` the progress reported is `k / S` |
| Blospray28.ReadSample | blospray.2.8.py:141-173 | one more sample extends the files read by the next frame of the stream |
| Blospray28.Render | blospray.2.8.py:105-177 | a finished render has read `S` frames from the stream with progress `k / S` after each and closed the socket; on an open connection holding `S` frames it always finishes |

## Left out

- OSPRay API calls (`ospNew*`, `ospSet*`, `ospCommit`, `ospRelease`, `ospRenderFrame`, `ospCancel`, framebuffer mapping) are foreign code. Their handles are opaque values, and what a call returns is a parameter.
- `dlopen` and `dlsym`, the plugins' load and generate functions, protobuf parsing and serialisation, JSON parsing and `json.dumps` are foreign code or library calls. Their results are parameters.
- SHA-1 (FIPS 180-4) is a library computation. A digest is an opaque 20-byte value. Only `get_sha1`'s hex formatting of it is modelled.
- `sendfile` and the reading and writing of image files (EXR, PNG, the framebuffer file of `_read_framebuffer_to_file`) are file I/O. A file is the byte sequence it holds, given or returned as a value.
- Blender is host glue. An object is a value whose fields are what the add-on reads. `bpy.path.abspath` is a parameter. The Blender UI calls in `render` (`begin_result`, `load_from_file`, `end_result`, `update_progress`) are left out; their effect is kept as the files read and the progress list.
- Float numerics are not modelled: camera field of view and aperture, light shapes, transfer-function interpolation, glm transforms, the volume data minimum and maximum, PLY colour scaling, and the `volume_raw` point transform. Each is an input or a symbolic value.
- Concurrency: the render thread of `core/ospray_render_server.cpp` and its two blocking queues are sequences. The thread's steps are interleaved by the caller, so thread scheduling is not explored beyond the traces given.
- `Connection.RenderLoop`, `RenderServer.RenderServer.HandleConnection` and the other connection loops run over a finite sequence of turns. A connection that is still open when the turns run out is reported as such, not followed further.
- `Ply.Grown`: the buffer growth `(int)(size * 1.1)` is a float multiplication; the model grows the buffer to `size * 11 / 10`. The double 1.1 is slightly above 11/10, so the two agree for every size below 2^53.
- `Hdf5.Fill` requires a non-empty axis-2 range to lie inside the grid. The source does not check the indices and would write outside the buffer.
- `Hdf5.Generate`: a dataset of rank below 3 fails with the rank message. The source swaps `dims[0]` and `dims[2]` before that check, which reads out of bounds for such a dataset.
- `HygCsv.CoerceMeaning`: coercion keeps a float as the literal it was parsed from. Exponents (`e` or `E` and a signed integer) are accepted, as `HygCsv.Unsigned` states. Python's other `int()` and `float()` extras (underscores, surrounding white space, `inf`, `nan`) are not modelled.
- `TraceViewport`: the clock, text drawing and the lines made from Blender's scene and view data are not modelled. Time stamps and argument texts come in already formatted.
- `FakerParse` threads one state value through functions instead of updating `Object` instances in place. Aliasing between objects is therefore expressed through handles.
- FakerParse also leaves out `ospCopyData`, the stop at `ospRenderFrame` under `-r`, the `<enums>` argument form, the dot-graph output and the final listing. A call other than `ospSetParam` in the `ospSet*` family raises in the script; the model has no call for it.
- `Faker`: the log text is not modelled. Its warnings and the `dump_arrays` lines are values, and float formatting is left out.
- `Plugin2.Plugin.SetBound` records a deleted bound in the list of bounds freed; the retain count OSPRay keeps for a handle is not modelled.
- `Server.DeleteAllSceneData` models `delete_all_scene_data` as deleting every registered name. The source erases from `scene_data_types` while iterating over it, and that undefined iteration order is not modelled.
- `PyCommon.ReceiveIntoArray` states what `receive_into_numpy_array` reads directly. It is not tied to the `receive_buffer` loop function.
- `Blospray28.DecodeId` decodes only 7-bit ids and gives `None` for any byte above 127. Python's `decode('utf8')` also accepts valid multibyte UTF-8. The ids a server sends are 40 hexadecimal digits, which decode the same way in both (`Blospray28.VolumeOfReply`).
- `BoundingMesh.SerializedSize` reports the exact byte size. The source computes it in a `uint32_t`, so for a mesh of 2^32 bytes or more the size wraps. The model does not cover such meshes (over a thousand million elements); `BoundingMesh.Encodable` only bounds each count.
- `BoundingMesh.Serialize` writes a buffer of the exact size. For a mesh whose size wraps in the source's `uint32_t`, the source allocates a buffer that is too small and writes past its end; the model does not cover such meshes.
- `Connection.Client.ExportMesh` takes each single `sock.send` of a vertex, normal, colour or triangle array to send all its bytes. The source ignores the count `send` returns, so a short write would lose the rest.
- `Connection.Client.ExportScene` sends its messages with `send_protobuf`. Its length prefix, and the payload unless `sendall` is set, go out by a single unchecked `sock.send`, which the model takes as sending everything.
- `Connection.Client.Update` sends its messages with `send_protobuf`. Its length prefix, and the payload unless `sendall` is set, go out by a single unchecked `sock.send`, which the model takes as sending everything.
- `Connection.Client.Render` sends its render request with `send_protobuf`. Its length prefix, and the payload unless `sendall` is set, go out by a single unchecked `sock.send`, which the model takes as sending everything.
- `RenderServer.RenderServer.HandleSceneMessage` models UPDATE_OBJECT and UPDATE_MATERIAL only as the message frames they consume. Their effect on scene objects, world instances, lights and materials is not modelled (`update_*_object`, `add_slices_objects`, the OSPRay material of `handle_update_material`). When the first receive of a material update fails the model stops, where the source goes on to receive settings for a default-typed update.
- `RenderServer.RenderServer.HandleControlMessage` sends the `ServerStateResult` of GET_SERVER_STATE as an opaque reply. Its JSON text lists plugin names and OSPRay handle addresses and is not modelled.
- `CoreServer.SceneState.ReceiveElement`: for mesh data whose receive fails, the contract says only that the stored models are unchanged and that the inbox did not grow. How much of a partial message was read is not stated.
- `CoreServer.SceneState.ReceiveElements`: when volume data loads no volume, the contract says only that the stored volumes are unchanged. The failure reply and a newly cached load function are stated by `CoreServer.SceneState.FindLoader` and `CoreServer.SceneState.ReceiveVolumeData`, not carried into the scene's chain.
- `CoreServer.ChainIsFrames` is stated for scenes whose element frames all arrived and that hold no mesh data. With mesh data, each element's `MeshData` frame and arrays lie between its frame and the next, as `CoreServer.SceneState.ReceiveElement` states element by element.
- `CoreServer.SceneState.ReceiveElements` ends a stalled scene after the held element was handled once more and the next receive failed on the closed socket. The source repeats that forever; for a mesh object each round adds one more instance to the world, which the model does not follow.
- `OldServer.ServerState.ReceiveElements` ends a stalled scene the same way, at an element of a skipped type held when the socket closed. The source repeats that forever without changing anything.
- `OldServer.ServerState.ReceiveScene` states only that the settings did not grow the inbox. Of the four settings frames the old server reads, only the image settings are tied to the stream, by `OldServer.ServerState.ReceiveImageSettings`.
- `writePNG` and `writeEXRFramebuffer` in `core/image.cpp` use OpenImageIO; only `writePPM` is modelled.

## Findings

| source | as written | input that shows it | evidently intended | confidence | as-written member | corrected member |
|---|---|---|---|---|---|---|
| render_ospray/common.py:42 | each `recv` asks for `min(n, 4096)`, the whole count, not what is left | `receive_buffer(sock, 10)` with 20 bytes waiting and a first `recv` that hands out 6: the second asks for 10 and the call returns 16 bytes | ask for `min(left, 4096)` and return exactly `n` bytes | not executed | PyCommon.ReceiveBufferOverreadExample | PyCommon.ReceiveBufferExact |
| core/bounding_mesh.cpp:141-164 | `deserialize` never moves its cursor past the vertex floats, so the edges are read from the vertex words | a mesh with one vertex of bits 7 and one edge 0: the edge reads back as 7 | advance past the vertices before reading the index arrays, so `deserialize(serialize(m)) == m` | not executed | BoundingMesh.DeserializeAsWrittenMisreadsEdges | BoundingMesh.DeserializeOfLayout |
| server/main.cpp:436 | `delete_plugin_instance` looks the definition up by the bare plugin name, but definitions are cached under the internal name `<type>_<name>` | any instance whose definition is the only one loaded: the lookup fails and the clear-data function is never called | look the definition up under the internal name, so the plugin's private data is released | not executed | Server.DefinitionKeyAsWrittenMissesOwnPlugin | Server.DeletePluginInstanceCorrected |
| core/ospray_render_server.cpp:901-916 | `START_RENDERING` starts the render thread without emptying the input queue | a cancel sent after a render has already ended stays queued and cancels the next render after its first frame | empty the input queue at the start, so a render is only cancelled by a cancel sent after it started | not executed | CoreServer.LeftoverCancelAsWritten | CoreServer.LeftoverCancelCorrected |
