/**
 * `affine3f_from_matrix`, shared by both C++ render servers: the 16 floats
 * of an object-to-world matrix, as the add-on sends them (row-major, see
 * `Connection.Matrix2List`), become OSPRay's affine transform, whose linear
 * part is given column by column and whose translation is the last column.
 * The bottom row of the matrix is not used.
 */
module Affine {
  import opened Bytes
  import Plugin2
  import Connection

  datatype Vec3f = Vec3f(x: F32, y: F32, z: F32)

  /** `osp::affine3f`: the columns `vx`, `vy`, `vz` of the linear part and the translation `p`. */
  datatype Affine3f = Affine3f(vx: Vec3f, vy: Vec3f, vz: Vec3f, p: Vec3f)

  /** `affine3f_from_matrix`. */
  function FromMatrix(m: Plugin2.Matrix): Affine3f
  {
    Affine3f(Vec3f(m[0], m[4], m[8]), Vec3f(m[1], m[5], m[9]),
             Vec3f(m[2], m[6], m[10]), Vec3f(m[3], m[7], m[11]))
  }

  /** Column `c` of the upper three rows of a matrix given as rows. */
  function Column(rows: seq<seq<F32>>, c: nat): Vec3f
    requires |rows| >= 3 && c < 4 && Connection.Rows4(rows)
  {
    Vec3f(rows[0][c], rows[1][c], rows[2][c])
  }

  /**
   * The transform built from a matrix the add-on flattened row by row has
   * the matrix's first three columns as its linear part and its fourth
   * column as its translation: the server reads back exactly the matrix
   * the client sent.
   */
  lemma {:induction false} FromRowMajor(rows: seq<seq<F32>>)
    requires |rows| == 4 && Connection.Rows4(rows)
    ensures |Connection.Matrix2List(rows)| == 16
    ensures FromMatrix(Connection.Matrix2List(rows)) ==
              Affine3f(Column(rows, 0), Column(rows, 1), Column(rows, 2), Column(rows, 3))
  {
    Connection.Matrix2ListRowMajor(rows);
    var m := Connection.Matrix2List(rows);
    assert m[0] == rows[0][0] && m[4] == rows[1][0] && m[8] == rows[2][0];
    assert m[1] == rows[0][1] && m[5] == rows[1][1] && m[9] == rows[2][1];
    assert m[2] == rows[0][2] && m[6] == rows[1][2] && m[10] == rows[2][2];
    assert m[3] == rows[0][3] && m[7] == rows[1][3] && m[11] == rows[2][3];
  }

  /**
   * Two matrices that agree on their upper three rows give the same
   * transform, and two that differ there give different ones: the bottom
   * row is ignored and nothing else is.
   */
  lemma {:induction false} FromMatrixUsesUpperRows(a: Plugin2.Matrix, b: Plugin2.Matrix)
    ensures FromMatrix(a) == FromMatrix(b) <==> a[..12] == b[..12]
  {
    assert a[..12] == [a[0], a[1], a[2], a[3], a[4], a[5], a[6], a[7], a[8], a[9], a[10], a[11]];
    assert b[..12] == [b[0], b[1], b[2], b[3], b[4], b[5], b[6], b[7], b[8], b[9], b[10], b[11]];
  }
}
