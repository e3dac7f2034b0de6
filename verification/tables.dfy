/** Small dense tables of reals and the two contractions every stage of a
    sum-factorised kernel is made of, accumulated in increasing index order
    as the kernels' `+=` loops do. */
module Tables {
  import opened Reals

  /** Rows of reals; `t[i][j]` is entry `(i, j)`. */
  type Table = seq<seq<real>>

  /** A rectangular table: `rows` rows of `cols` entries each. */
  predicate IsTable(m: Table, rows: nat, cols: nat)
  {
    |m| == rows && forall j: nat | j < rows :: |m[j]| == cols
  }

  /** Entry `(i, j)` of a table, `0.0` outside it. */
  function Tab(t: Table, i: nat, j: nat): real
  {
    if i < |t| && j < |t[i]| then t[i][j] else 0.0
  }

  /** `u(i,0)*w(j,0) + ... + u(i,n-1)*w(j,n-1)`: contraction of row `i` of
      `u` with row `j` of `w`. */
  function RowDot(u: Table, i: nat, w: Table, j: nat, n: nat): real
  {
    if n == 0 then 0.0 else RowDot(u, i, w, j, n - 1) + Tab(u, i, n - 1) * Tab(w, j, n - 1)
  }

  /** `u(0,i)*w(j,0) + ... + u(n-1,i)*w(j,n-1)`: contraction of column `i`
      of `u` with row `j` of `w`. */
  function ColDot(u: Table, i: nat, w: Table, j: nat, n: nat): real
  {
    if n == 0 then 0.0 else ColDot(u, i, w, j, n - 1) + Tab(u, n - 1, i) * Tab(w, j, n - 1)
  }

  /** The `rows x cols` table of `RowDot(u, i, w, j, n)`. */
  function RowDots(u: Table, w: Table, rows: nat, cols: nat, n: nat): (t: Table)
    ensures IsTable(t, rows, cols)
    ensures forall i: nat, j: nat | i < rows && j < cols :: t[i][j] == RowDot(u, i, w, j, n)
  {
    seq(rows, i requires 0 <= i < rows => seq(cols, j requires 0 <= j < cols => RowDot(u, i, w, j, n)))
  }

  /** The `rows x cols` table whose entry `(i, j)` is `ColDot(u, j, w, i, n)`. */
  function ColDots(u: Table, w: Table, rows: nat, cols: nat, n: nat): (t: Table)
    ensures IsTable(t, rows, cols)
    ensures forall i: nat, j: nat | i < rows && j < cols :: t[i][j] == ColDot(u, j, w, i, n)
  {
    seq(rows, i requires 0 <= i < rows => seq(cols, j requires 0 <= j < cols => ColDot(u, j, w, i, n)))
  }

  /** Column `j` of a table, its first `n` entries. */
  function Column(t: Table, j: nat, n: nat): (c: seq<real>)
    ensures |c| == n && forall i: nat | i < n :: c[i] == Tab(t, i, j)
  {
    seq(n, i requires 0 <= i < n => Tab(t, i, j))
  }

  /** One more term of a row contraction, in either factor order. */
  lemma RowDotStep(u: Table, i: nat, w: Table, j: nat, n: nat, acc: real, a: real, b: real)
    requires acc == RowDot(u, i, w, j, n) && a == Tab(u, i, n) && b == Tab(w, j, n)
    ensures acc + a * b == RowDot(u, i, w, j, n + 1)
    ensures acc + b * a == RowDot(u, i, w, j, n + 1)
  {
    MulCongruence(a, b, Tab(u, i, n), Tab(w, j, n));
  }

  /** One more term of a column contraction, in either factor order. */
  lemma ColDotStep(u: Table, i: nat, w: Table, j: nat, n: nat, acc: real, a: real, b: real)
    requires acc == ColDot(u, i, w, j, n) && a == Tab(u, n, i) && b == Tab(w, j, n)
    ensures acc + a * b == ColDot(u, i, w, j, n + 1)
    ensures acc + b * a == ColDot(u, i, w, j, n + 1)
  {
    MulCongruence(a, b, Tab(u, n, i), Tab(w, j, n));
  }

  /** A rank-one update `next[i][j] = m[i][j] + a[j]*b[i]` by column `n` of
      `u` and column `n` of `w` extends every column contraction by one term. */
  lemma ColDotsStep(u: Table, w: Table, m: Table, next: Table, a: seq<real>, b: seq<real>,
                    rows: nat, cols: nat, n: nat)
    requires IsTable(m, rows, cols) && IsTable(next, rows, cols) && |a| == cols && |b| == rows
    requires forall i: nat, j: nat | i < rows && j < cols :: m[i][j] == ColDot(u, j, w, i, n)
    requires forall j: nat | j < cols :: a[j] == Tab(u, n, j)
    requires forall i: nat | i < rows :: b[i] == Tab(w, i, n)
    requires forall i: nat, j: nat | i < rows && j < cols :: next[i][j] == m[i][j] + a[j] * b[i]
    ensures forall i: nat, j: nat | i < rows && j < cols :: next[i][j] == ColDot(u, j, w, i, n + 1)
  {
    forall i: nat, j: nat | i < rows && j < cols
      ensures next[i][j] == ColDot(u, j, w, i, n + 1)
    {
      ColDotStep(u, j, w, i, n, m[i][j], a[j], b[i]);
    }
  }

  /** An update `next[j] = row[j] + v[j]*c` by entry `n` of row `i` of `u`
      and column `n` of `w` extends every row contraction by one term. */
  lemma RowDotsStep(u: Table, i: nat, w: Table, row: seq<real>, next: seq<real>, v: seq<real>, c: real,
                    cols: nat, n: nat)
    requires |row| == cols && |next| == cols && |v| == cols
    requires forall j: nat | j < cols :: row[j] == RowDot(u, i, w, j, n)
    requires c == Tab(u, i, n)
    requires forall j: nat | j < cols :: v[j] == Tab(w, j, n)
    requires forall j: nat | j < cols :: next[j] == row[j] + v[j] * c
    ensures forall j: nat | j < cols :: next[j] == RowDot(u, i, w, j, n + 1)
  {
    forall j: nat | j < cols
      ensures next[j] == RowDot(u, i, w, j, n + 1)
    {
      RowDotStep(u, i, w, j, n, row[j], c, v[j]);
    }
  }

  /** Two tables of the same shape with the same entries are equal. */
  lemma TableExt(a: Table, b: Table, rows: nat, cols: nat)
    requires IsTable(a, rows, cols) && IsTable(b, rows, cols)
    requires forall i: nat, j: nat | i < rows && j < cols :: a[i][j] == b[i][j]
    ensures a == b
  {
    forall i: nat | i < rows
      ensures a[i] == b[i]
    {
    }
  }

  // ---- Sum factorisation and linearity of the contractions.

  /** `sum over l < m of u(k,l)*w(i,l)*v(j,k)`: row `k` of a dense double sum. */
  function Inner(u: Table, k: nat, w: Table, i: nat, v: Table, j: nat, m: nat): real
  {
    if m == 0 then 0.0 else Inner(u, k, w, i, v, j, m - 1) + Tab(u, k, m - 1) * Tab(w, i, m - 1) * Tab(v, j, k)
  }

  /** `sum over k < n, l < m of u(k,l)*w(i,l)*v(j,k)`, every product written out. */
  function Dense(u: Table, w: Table, i: nat, v: Table, j: nat, n: nat, m: nat): real
  {
    if n == 0 then 0.0 else Dense(u, w, i, v, j, n - 1, m) + Inner(u, n - 1, w, i, v, j, m)
  }

  lemma Distrib(a: real, b: real, c: real)
    ensures (a + b) * c == a * c + b * c
  {
  }

  /** Factoring the common `v(j,k)` out of one row of the dense sum. */
  lemma {:induction false} InnerFactors(u: Table, k: nat, w: Table, i: nat, v: Table, j: nat, m: nat)
    ensures Inner(u, k, w, i, v, j, m) == RowDot(u, k, w, i, m) * Tab(v, j, k)
  {
    if m > 0 {
      InnerFactors(u, k, w, i, v, j, m - 1);
      Distrib(RowDot(u, k, w, i, m - 1), Tab(u, k, m - 1) * Tab(w, i, m - 1), Tab(v, j, k));
    }
  }

  /** Sum factorisation: contracting over `l` first and over `k` afterwards
      gives the dense double sum. */
  lemma {:induction false} FactorisedIsDense(u: Table, w: Table, rows: nat, cols: nat, m: nat,
                                             i: nat, v: Table, j: nat, n: nat)
    requires i < cols && n <= rows
    ensures ColDot(RowDots(u, w, rows, cols, m), i, v, j, n) == Dense(u, w, i, v, j, n, m)
  {
    if n > 0 {
      FactorisedIsDense(u, w, rows, cols, m, i, v, j, n - 1);
      InnerFactors(u, n - 1, w, i, v, j, m);
    }
  }

  /** `t3 = t1 + c*t2` entrywise on the `rows x cols` corner. */
  predicate Combo(t3: Table, t1: Table, t2: Table, c: real, rows: nat, cols: nat)
  {
    forall i: nat, j: nat | i < rows && j < cols :: Tab(t3, i, j) == Tab(t1, i, j) + c * Tab(t2, i, j)
  }

  lemma LinearStep(a1: real, a2: real, b1: real, b2: real, x: real, c: real)
    ensures (a1 + c * a2) + (b1 + c * b2) * x == (a1 + b1 * x) + c * (a2 + b2 * x)
  {
  }

  /** A row contraction is linear in its first factor. */
  lemma {:induction false} RowDotLinear(u3: Table, u1: Table, u2: Table, c: real, rows: nat,
                                        i: nat, w: Table, j: nat, n: nat)
    requires Combo(u3, u1, u2, c, rows, n) && i < rows
    ensures RowDot(u3, i, w, j, n) == RowDot(u1, i, w, j, n) + c * RowDot(u2, i, w, j, n)
  {
    if n > 0 {
      RowDotLinear(u3, u1, u2, c, rows, i, w, j, n - 1);
      LinearStep(RowDot(u1, i, w, j, n - 1), RowDot(u2, i, w, j, n - 1),
                 Tab(u1, i, n - 1), Tab(u2, i, n - 1), Tab(w, j, n - 1), c);
    }
  }

  /** A column contraction is linear in its first factor. */
  lemma {:induction false} ColDotLinear(u3: Table, u1: Table, u2: Table, c: real, cols: nat,
                                        i: nat, w: Table, j: nat, n: nat)
    requires Combo(u3, u1, u2, c, n, cols) && i < cols
    ensures ColDot(u3, i, w, j, n) == ColDot(u1, i, w, j, n) + Scale(c, ColDot(u2, i, w, j, n))
  {
    if n > 0 {
      ColDotLinear(u3, u1, u2, c, cols, i, w, j, n - 1);
      LinearStep(ColDot(u1, i, w, j, n - 1), ColDot(u2, i, w, j, n - 1),
                 Tab(u1, n - 1, i), Tab(u2, n - 1, i), Tab(w, j, n - 1), c);
    }
  }

  lemma RowDotsLinear(u3: Table, u1: Table, u2: Table, c: real, w: Table, rows: nat, cols: nat, n: nat)
    requires Combo(u3, u1, u2, c, rows, n)
    ensures Combo(RowDots(u3, w, rows, cols, n), RowDots(u1, w, rows, cols, n),
                  RowDots(u2, w, rows, cols, n), c, rows, cols)
  {
    forall i: nat, j: nat | i < rows && j < cols
      ensures RowDot(u3, i, w, j, n) == RowDot(u1, i, w, j, n) + c * RowDot(u2, i, w, j, n)
    {
      RowDotLinear(u3, u1, u2, c, rows, i, w, j, n);
    }
  }

  lemma ColDotsLinear(u3: Table, u1: Table, u2: Table, c: real, w: Table, rows: nat, cols: nat, n: nat)
    requires Combo(u3, u1, u2, c, n, cols)
    ensures Combo(ColDots(u3, w, rows, cols, n), ColDots(u1, w, rows, cols, n),
                  ColDots(u2, w, rows, cols, n), c, rows, cols)
  {
    forall i: nat, j: nat | i < rows && j < cols
      ensures ColDot(u3, j, w, i, n) == ColDot(u1, j, w, i, n) + c * ColDot(u2, j, w, i, n)
    {
      ColDotLinear(u3, u1, u2, c, cols, j, w, i, n);
    }
  }

  // ---- In-place updates the kernels perform on their scratch arrays.

  /** `row[i] += v[i] * c` for every `i`. */
  method Axpy(row: seq<real>, v: seq<real>, c: real) returns (res: seq<real>)
    requires |v| == |row|
    ensures |res| == |row|
    ensures forall i: nat | i < |row| :: res[i] == row[i] + v[i] * c
  {
    res := row;
    var i := 0;
    while i < |row|
      invariant i <= |row| && |res| == |row|
      invariant forall j: nat | j < i :: res[j] == row[j] + v[j] * c
      invariant forall j: nat | i <= j < |row| :: res[j] == row[j]
    {
      res := res[i := res[i] + v[i] * c];
      i := i + 1;
    }
  }

  /** `row[i] += (u[i] * a) + (v[i] * b)` for every `i`. */
  method AddRow(row: seq<real>, u: seq<real>, a: real, v: seq<real>, b: real) returns (res: seq<real>)
    requires |u| == |row| && |v| == |row|
    ensures |res| == |row|
    ensures forall i: nat | i < |row| :: res[i] == row[i] + (u[i] * a + v[i] * b)
  {
    res := row;
    var i := 0;
    while i < |row|
      invariant i <= |row| && |res| == |row|
      invariant forall j: nat | j < i :: res[j] == row[j] + (u[j] * a + v[j] * b)
      invariant forall j: nat | i <= j < |row| :: res[j] == row[j]
    {
      res := res[i := res[i] + (u[i] * a + v[i] * b)];
      i := i + 1;
    }
  }

  /** `m[j][i] += u[i] * w[j]` for every `j` and `i`. */
  method RankOne(m: Table, u: seq<real>, w: seq<real>) returns (res: Table)
    requires IsTable(m, |w|, |u|)
    ensures IsTable(res, |w|, |u|)
    ensures forall j: nat, i: nat | j < |w| && i < |u| :: res[j][i] == m[j][i] + u[i] * w[j]
  {
    res := m;
    var j := 0;
    while j < |w|
      invariant j <= |w| && IsTable(res, |w|, |u|)
      invariant forall j': nat, i: nat | j' < j && i < |u| :: res[j'][i] == m[j'][i] + u[i] * w[j']
      invariant forall j': nat | j <= j' < |w| :: res[j'] == m[j']
    {
      var row := Axpy(res[j], u, w[j]);
      res := res[j := row];
      j := j + 1;
    }
  }

  /** `m[j][i] += (u[i] * a[j]) + (v[i] * b[j])` for every `j` and `i`. */
  method RankTwo(m: Table, u: seq<real>, a: seq<real>, v: seq<real>, b: seq<real>) returns (res: Table)
    requires |v| == |u| && |b| == |a| && IsTable(m, |a|, |u|)
    ensures IsTable(res, |a|, |u|)
    ensures forall j: nat, i: nat | j < |a| && i < |u| ::
              res[j][i] == m[j][i] + (u[i] * a[j] + v[i] * b[j])
  {
    res := m;
    var j := 0;
    while j < |a|
      invariant j <= |a| && IsTable(res, |a|, |u|)
      invariant forall j': nat, i: nat | j' < j && i < |u| ::
                  res[j'][i] == m[j'][i] + (u[i] * a[j'] + v[i] * b[j'])
      invariant forall j': nat | j <= j' < |a| :: res[j'] == m[j']
    {
      var row := AddRow(res[j], u, a[j], v, b[j]);
      res := res[j := row];
      j := j + 1;
    }
  }
}
